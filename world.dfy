/**
 * The simulation's world (CsharpPatterns/State/World.cs): a 10 by 10 map
 * of two-letter marks, two agents and a list of food tiles. One tick
 * clears the map, lets every agent standing on food eat it, marks the
 * agents and the food on the map, updates every agent and then tops the
 * food back up to four pieces. The static `World.Map` is the field `grid`,
 * handed to the agents' methods that read it; every random draw is a
 * nondeterministic choice, and the ghost results of `Update` name them.
 */
module Worlds {
  import opened Wrappers
  import opened Vectors
  import opened WorldGrid
  import opened AgentRules
  import opened Agents

  /** The draws of one agent's evaluation: the index into `FoodSpots` and
      the two collision offsets. */
  datatype Choice = Choice(pick: int, dx: int, dy: int)

  /** Whether an agent ate this tick, and the two draws `Eat` was given. */
  datatype Meal = Meal(ate: bool, relief: int, gain: int)

  /** What an agent that did not eat is recorded with. */
  const NoMeal := Meal(false, 30, 10)

  /** The draws lie in `[30, 50)` and `[10, 30)`, as `random.Next` gives them. */
  predicate MealFits(m: Meal) {
    30 <= m.relief < 50 && 10 <= m.gain < 30
  }

  /** The view of an agent after `m`. */
  function Fed(v: AgentView, m: Meal): AgentView {
    if m.ate then Ate(v, m.relief, m.gain) else v
  }

  /** `List<Vector2Int>.Remove`: drop the first occurrence of `p`, if any. */
  function RemoveFirst(s: seq<Vector2Int>, p: Vector2Int): (r: seq<Vector2Int>)
    ensures p !in s ==> r == s
    ensures p in s ==> |r| == |s| - 1
  {
    if s == [] then []
    else if s[0] == p then s[1..]
    else [s[0]] + RemoveFirst(s[1..], p)
  }

  /** Exactly one occurrence of `p` goes, when there is one. */
  lemma {:induction false} RemoveFirstMultiset(s: seq<Vector2Int>, p: Vector2Int)
    ensures multiset(RemoveFirst(s, p)) == multiset(s) - multiset{p}
    ensures multiset(RemoveFirst(s, p)) <= multiset(s)
  {
    if s != [] {
      assert s == [s[0]] + s[1..];
      if s[0] != p {
        RemoveFirstMultiset(s[1..], p);
      }
    }
  }

  /** What `RemoveFirst` removes is the first occurrence: the entries
      before it and after it stay, in order. */
  lemma {:induction false} RemoveFirstAt(s: seq<Vector2Int>, p: Vector2Int, k: int)
    requires 0 <= k < |s| && s[k] == p && p !in s[..k]
    ensures RemoveFirst(s, p) == s[..k] + s[k + 1..]
  {
    if k > 0 {
      assert s[0] != p by { assert s[0] == s[..k][0]; }
      assert p !in s[1..][..k - 1] by { assert s[1..][..k - 1] == s[..k][1..]; }
      RemoveFirstAt(s[1..], p, k - 1);
      assert s[1..][..k - 1] + s[1..][k..] == s[1..k] + s[k + 1..];
      assert [s[0]] + s[1..k] == s[..k];
    }
  }

  /** The food list after the first `n` agents, standing at `ps`, each ate
      the first food tile on their cell in turn (an agent on no food eats
      nothing). */
  function FoodLeft(food: seq<Vector2Int>, ps: seq<Vector2Int>, n: nat): (r: seq<Vector2Int>)
    requires n <= |ps|
    ensures |food| - n <= |r| <= |food|
  {
    if n == 0 then food
    else RemoveFirst(FoodLeft(food, ps, n - 1), ps[n - 1])
  }

  /** The meals only take tiles away. */
  lemma {:induction false} FoodLeftSubset(food: seq<Vector2Int>, ps: seq<Vector2Int>, n: nat)
    requires n <= |ps|
    ensures multiset(FoodLeft(food, ps, n)) <= multiset(food)
  {
    if n > 0 {
      var earlier := FoodLeft(food, ps, n - 1);
      FoodLeftSubset(food, ps, n - 1);
      RemoveFirstMultiset(earlier, ps[n - 1]);
    }
  }

  /** The `i`-th agent finds food on its cell when its turn comes. */
  predicate Eats(food: seq<Vector2Int>, ps: seq<Vector2Int>, i: int)
    requires 0 <= i < |ps|
  {
    ps[i] in FoodLeft(food, ps, i)
  }

  /** The mark of cell `c` on a blank map after the first `n` agents, at
      `ps` with short names `ns`, wrote their names in turn: the last one
      there wins. */
  function PaintedBy(c: Vector2Int, ps: seq<Vector2Int>, ns: seq<Label>, n: nat): (r: Label)
    requires n <= |ps| == |ns|
    ensures r == Blank || exists j :: 0 <= j < n && ps[j] == c && r == ns[j]
  {
    if n == 0 then Blank
    else if ps[n - 1] == c then ns[n - 1]
    else PaintedBy(c, ps, ns, n - 1)
  }

  /** A cell no agent stands on stays blank. */
  lemma {:induction false} PaintedByNobody(c: Vector2Int, ps: seq<Vector2Int>, ns: seq<Label>, n: nat)
    requires n <= |ps| == |ns| && forall j :: 0 <= j < n ==> ps[j] != c
    ensures PaintedBy(c, ps, ns, n) == Blank
  {
    if n > 0 {
      PaintedByNobody(c, ps, ns, n - 1);
    }
  }

  /** A cell shows the name of the last agent standing on it. */
  lemma {:induction false} PaintedByLast(c: Vector2Int, ps: seq<Vector2Int>, ns: seq<Label>, n: nat, j: nat)
    requires n <= |ps| == |ns| && j < n && ps[j] == c && forall k :: j < k < n ==> ps[k] != c
    ensures PaintedBy(c, ps, ns, n) == ns[j]
  {
    if j < n - 1 {
      PaintedByLast(c, ps, ns, n - 1, j);
    }
  }

  /** Every cell `(x, 0)` with `x < n`. */
  function Column(n: nat): (r: set<Vector2Int>)
    ensures |r| == n
    ensures forall c :: c in r <==> 0 <= c.x < n && c.y == 0
  {
    if n == 0 then {}
    else
      var r := Column(n - 1) + {Vector2Int(n - 1, 0)};
      assert Vector2Int(n - 1, 0) !in Column(n - 1);
      r
  }

  /** A list never has more distinct entries than entries. */
  lemma {:induction false} DistinctAtMost(s: seq<Vector2Int>)
    ensures |set c | c in s| <= |s|
  {
    if s != [] {
      DistinctAtMost(s[1..]);
      assert (set c | c in s) == (set c | c in s[1..]) + {s[0]};
    }
  }

  /** Fewer occupied cells than rows: some cell of the first column is not
      among them. */
  lemma FreeInColumn(occupied: seq<Vector2Int>, n: nat)
    requires |occupied| < n
    ensures exists x :: 0 <= x < n && Vector2Int(x, 0) !in occupied
  {
    var taken := set c | c in occupied;
    DistinctAtMost(occupied);
    var column := Column(n);
    assert |column - taken| > 0 by {
      assert |column - taken| + |column * taken| == |column|;
      assert |column * taken| <= |taken| by {
        assert |taken - column| + |column * taken| == |taken|;
      }
    }
    var c :| c in column - taken;
  }

  /** The map after the marking loops of `Update`: "FD" on every cell of
      `food`, elsewhere the short name of the last of the agents at `ps`
      (short names `ns`) standing there, or blank. */
  ghost predicate Painted(grid: array2<Label>, food: seq<Vector2Int>, ps: seq<Vector2Int>, ns: seq<Label>)
    requires |ps| == |ns|
    reads grid
  {
    grid.Length0 == XMax && grid.Length1 == YMax &&
    forall x, y :: 0 <= x < XMax && 0 <= y < YMax ==>
      grid[x, y] == if Vector2Int(x, y) in food then Food else PaintedBy(Vector2Int(x, y), ps, ns, |ps|)
  }

  /** `meals[j]` records whether the `j`th agent found food on its cell
      when its turn came, with draws in range. */
  predicate MealsOf(food: seq<Vector2Int>, ps: seq<Vector2Int>, meals: seq<Meal>) {
    |meals| == |ps| && forall j :: 0 <= j < |ps| ==> MealFits(meals[j]) && meals[j].ate == Eats(food, ps, j)
  }

  /** The map as the tick leaves it for the agents: food wins over agents,
      and cells with neither are blank. If at most six cells are covered,
      some cell is blank, so `SpawnFood` finds a free space. */
  lemma SomeSpaceFree(grid: array2<Label>, ps: seq<Vector2Int>, ns: seq<Label>, food: seq<Vector2Int>)
    requires |ps| == |ns| && |ps| + |food| < XMax && Painted(grid, food, ps, ns)
    ensures |Labelled(grid, Blank)| > 0
  {
    FreeInColumn(ps + food, XMax);
    var x :| 0 <= x < XMax && Vector2Int(x, 0) !in ps + food;
    PaintedByNobody(Vector2Int(x, 0), ps, ns, |ps|);
    assert grid[x, 0] == Blank;
    LabelledIff(grid, Blank, Vector2Int(x, 0));
  }

  /** The agents' positions, in array order. */
  ghost function PositionsOf(agents: seq<Agent>): (ps: seq<Vector2Int>)
    reads agents`position
    ensures |ps| == |agents| && forall i :: 0 <= i < |agents| ==> ps[i] == agents[i].position
  {
    if agents == [] then [] else PositionsOf(agents[..|agents| - 1]) + [agents[|agents| - 1].position]
  }

  /** The agents' short names, in array order. */
  function NamesOf(agents: seq<Agent>): (ns: seq<Label>)
    ensures |ns| == |agents| && forall i :: 0 <= i < |agents| ==> ns[i] == agents[i].shortName
  {
    if agents == [] then [] else NamesOf(agents[..|agents| - 1]) + [agents[|agents| - 1].shortName]
  }

  class World {
    /** `World.Map`, `xMax` by `yMax`. */
    const grid: array2<Label>
    const agents: seq<Agent>
    var foodSpaces: seq<Vector2Int>
    var currentFoodSpaces: int

    /** The agents' state objects. */
    ghost function States(): set<AgentState?>
      reads agents
    {
      set i | 0 <= i < |agents| :: agents[i].state
    }

    /** Two distinct agents, each with its own state, inside the map, with an
        empty queue and hunger and energy in range. */
    ghost predicate AgentsOk()
      reads agents, States()
    {
      |agents| == 2 && agents[0] != agents[1] &&
      forall i :: 0 <= i < |agents| ==>
        agents[i].Valid() && Quiescent(agents[i].View()) && Placed(agents[i].View(), grid)
    }

    /** Between ticks: a 10 by 10 map, the agents as above, and exactly
        `maxFoodPieces` food tiles, all on the map and counted by
        `currentFoodSpaces`. */
    ghost predicate Valid()
      reads this, agents, States()
    {
      grid.Length0 == XMax && grid.Length1 == YMax && AgentsOk() &&
      |foodSpaces| == currentFoodSpaces == MaxFoodPieces &&
      forall f :: f in foodSpaces ==> InMap(grid, f)
    }

    /** `new World()`: a blank map, "Agent1" at `(x1, y1)` and "Agent2" at
        `(x2, y2)`, re-rolled once to `(x3, y3)` if both start on the same
        cell, then four food tiles. */
    constructor (x1: int, y1: int, x2: int, y2: int, x3: int, y3: int)
      requires 0 <= x1 < XMax && 0 <= y1 < YMax
      requires 0 <= x2 < XMax && 0 <= y2 < YMax
      requires 0 <= x3 < XMax && 0 <= y3 < YMax
      ensures Valid() && fresh(grid)
      ensures agents[0].name == "Agent1" && agents[1].name == "Agent2"
      ensures agents[0].position == Vector2Int(x1, y1)
      ensures agents[1].position == if Vector2Int(x1, y1) == Vector2Int(x2, y2) then Vector2Int(x3, y3) else Vector2Int(x2, y2)
      ensures forall x, y :: 0 <= x < XMax && 0 <= y < YMax ==> grid[x, y] == Blank
    {
      grid := new Label[XMax, YMax];
      var first, second := NewAgents(x1, y1, x2, y2, x3, y3);
      agents := [first, second];
      foodSpaces := [];
      currentFoodSpaces := 0;
      new;
      ClearMap();
      LabelledIff(grid, Blank, Zero);
      var ok := SpawnFood();
      assert forall f :: f in foodSpaces ==> Marked(grid, Blank, f);
      assert AgentsOk() by { assert agents[0] == first && agents[1] == second; }
    }

    /** The agents of `new World()`: "Agent1" at `(x1, y1)` and "Agent2" at
        `(x2, y2)`, moved once to `(x3, y3)` if it starts on Agent1's cell;
        nothing checks the new cell. */
    static method NewAgents(x1: int, y1: int, x2: int, y2: int, x3: int, y3: int) returns (first: Agent, second: Agent)
      requires 0 <= x1 < XMax && 0 <= y1 < YMax
      requires 0 <= x2 < XMax && 0 <= y2 < YMax
      requires 0 <= x3 < XMax && 0 <= y3 < YMax
      ensures fresh(first) && fresh(first.state) && fresh(second) && fresh(second.state) && first != second
      ensures first.Valid() && Quiescent(first.View()) && first.name == "Agent1"
      ensures second.Valid() && Quiescent(second.View()) && second.name == "Agent2"
      ensures first.View().foodTarget == MinusOne && second.View().foodTarget == MinusOne
      ensures first.state.kind == StateKind.Idle && second.state.kind == StateKind.Idle
      ensures MinHunger <= first.hunger < 30 && 10 <= first.energy < MaxEnergy
      ensures MinHunger <= second.hunger < 30 && 10 <= second.energy < MaxEnergy
      ensures first.position == Vector2Int(x1, y1)
      ensures second.position == if Vector2Int(x1, y1) == Vector2Int(x2, y2) then Vector2Int(x3, y3) else Vector2Int(x2, y2)
    {
      first := new Agent(x1, y1, "Agent1", 0, 0);
      second := new Agent(x2, y2, "Agent2", 0, 0);
      if first.position == second.position {
        second.SetPosition(x3, y3);
      }
    }

    /** `Update`, one tick. The map is cleared; each agent standing on food
        eats the first tile on its cell (`meals`) and its short name is
        written on its cell; "FD" is written on every remaining tile; each
        agent then runs `Agent.Update` against that map (`choices`);
        finally the food is topped up to four tiles drawn from the cells
        still blank. `before` holds the agents' views at the start. Neither
        fault can happen: at least two tiles survive the meals, so the map
        always shows food, and two agents and four tiles never cover all of
        the map. */
    method Update() returns (ghost before: seq<AgentView>, ghost meals: seq<Meal>, ghost choices: seq<Choice>)
      requires Valid()
      modifies this, grid, agents, States()
      ensures Valid()
      ensures |before| == |choices| == |agents|
      ensures forall j :: 0 <= j < |agents| ==> before[j] == old(agents[j].View())
      ensures MealsOf(old(foodSpaces), old(PositionsOf(agents)), meals)
      ensures var left := FoodLeft(old(foodSpaces), old(PositionsOf(agents)), |agents|);
        && foodSpaces[..|left|] == left
        && (forall k :: |left| <= k < |foodSpaces| ==> Marked(grid, Blank, foodSpaces[k]))
        && Painted(grid, left, old(PositionsOf(agents)), NamesOf(agents))
      ensures forall j :: 0 <= j < |agents| ==> Moved(agents[j], Fed(before[j], meals[j]), grid, choices[j])
    {
      before, meals := Prepare();
      choices := Act(old(foodSpaces), old(PositionsOf(agents)), NamesOf(agents), before, meals);
    }

    /** The rest of `Update` after the marking: the third loop, then
        `SpawnFood`. Neither can fault on the map the first two loops
        leave: it shows food, and two agents and at most four tiles leave
        a cell blank. */
    method Act(ghost food: seq<Vector2Int>, ghost ps: seq<Vector2Int>, ghost ns: seq<Label>,
               ghost before: seq<AgentView>, ghost meals: seq<Meal>) returns (ghost choices: seq<Choice>)
      requires grid.Length0 == XMax && grid.Length1 == YMax && |ps| == |ns| && |food| == MaxFoodPieces
      requires AllServed(food, ps, before, meals) && Painted(grid, foodSpaces, ps, ns)
      modifies this`foodSpaces, this`currentFoodSpaces, agents, States()
      ensures Valid() && |choices| == |agents| && MealsOf(food, ps, meals)
      ensures var left := FoodLeft(food, ps, |agents|);
        && foodSpaces[..|left|] == left
        && (forall k :: |left| <= k < |foodSpaces| ==> Marked(grid, Blank, foodSpaces[k]))
        && Painted(grid, left, ps, ns)
      ensures forall j :: 0 <= j < |agents| ==> Moved(agents[j], Fed(before[j], meals[j]), grid, choices[j])
    {
      ghost var left := foodSpaces;
      assert foodSpaces[0] in foodSpaces;
      LabelledIff(grid, Food, foodSpaces[0]);
      choices := MoveAll(before, meals, left, ps, ns);
      Restock(left, ps, ns);
    }

    /** The third loop of `Update` on agents that have just eaten: each
        ends where its update from its fed view leads, and the map, marked
        for `food` and the agents at `ps` with short names `ns`, stays. */
    method MoveAll(ghost before: seq<AgentView>, ghost meals: seq<Meal>,
                   ghost food: seq<Vector2Int>, ghost ps: seq<Vector2Int>, ghost ns: seq<Label>)
      returns (ghost choices: seq<Choice>)
      requires AgentsOk() && |before| == |meals| == |agents| && |Labelled(grid, Food)| > 0
      requires forall j :: 0 <= j < |agents| ==> FedAs(agents[j], before[j], meals[j])
      requires |ps| == |ns| && Painted(grid, food, ps, ns)
      modifies agents, States()
      ensures AgentsOk() && |choices| == |agents| && Painted(grid, food, ps, ns) && unchanged(this)
      ensures forall j :: 0 <= j < |agents| ==> Moved(agents[j], Fed(before[j], meals[j]), grid, choices[j])
    {
      var ok;
      ghost var fed;
      ok, fed, choices := UpdateAgents();
      SteppedKeepsAgentsOk(fed, choices);
    }

    /** `SpawnFood` when the counter matches a list of at most four tiles
        on a map marked for them and two agents, so that a cell is blank:
        the list is topped up to four tiles, the new ones on blank cells. */
    method Restock(ghost left: seq<Vector2Int>, ghost ps: seq<Vector2Int>, ghost ns: seq<Label>)
      requires grid.Length0 == XMax && grid.Length1 == YMax && AgentsOk()
      requires foodSpaces == left && currentFoodSpaces == |left| <= MaxFoodPieces
      requires forall f :: f in left ==> InMap(grid, f)
      requires |ps| == |ns| && |ps| + |left| < XMax && Painted(grid, left, ps, ns)
      modifies this`foodSpaces, this`currentFoodSpaces
      ensures Valid() && foodSpaces[..|left|] == left && Painted(grid, left, ps, ns)
      ensures forall k :: |left| <= k < |foodSpaces| ==> Marked(grid, Blank, foodSpaces[k])
    {
      SomeSpaceFree(grid, ps, ns, left);
      var ok := SpawnFood();
      forall f | f in foodSpaces ensures InMap(grid, f) {
        if f !in left {
          assert f in foodSpaces[|left|..];
        }
      }
    }

    /** The first half of `Update`: the map is cleared, the agents eat and
        are marked, then the food is marked. */
    method Prepare() returns (ghost before: seq<AgentView>, ghost meals: seq<Meal>)
      requires Valid()
      modifies grid, this`foodSpaces, this`currentFoodSpaces, agents`hunger, agents`energy
      ensures |before| == |agents| && forall j :: 0 <= j < |agents| ==> before[j] == old(agents[j].View())
      ensures PositionsOf(agents) == old(PositionsOf(agents))
      ensures AllServed(old(foodSpaces), old(PositionsOf(agents)), before, meals)
      ensures Painted(grid, foodSpaces, old(PositionsOf(agents)), NamesOf(agents))
    {
      before, meals := FeedAndMark();
      MarkFoodAfterMeals(old(foodSpaces), PositionsOf(agents), NamesOf(agents), before, meals);
    }

    /** `MarkFood` after the first loop: what the meals did to the agents,
        the list and the counter stays as it was. */
    method MarkFoodAfterMeals(ghost food: seq<Vector2Int>, ghost ps: seq<Vector2Int>, ghost ns: seq<Label>,
                              ghost before: seq<AgentView>, ghost meals: seq<Meal>)
      requires grid.Length0 == XMax && grid.Length1 == YMax && |ps| == |ns| && AllServed(food, ps, before, meals)
      requires forall x, y :: 0 <= x < XMax && 0 <= y < YMax ==>
        grid[x, y] == PaintedBy(Vector2Int(x, y), ps, ns, |ps|)
      modifies grid
      ensures AllServed(food, ps, before, meals) && Painted(grid, foodSpaces, ps, ns)
    {
      MarkFood(ps, ns);
    }

    /** After every agent's turn, starting from four food tiles on the map
        counted by the counter: the agents are still quiescent and on the
        map, each ate exactly when its cell still held food, the list is
        what those meals left, the counter matches it, and the map shows
        the agents' short names. */
    lemma ServedAll(food: seq<Vector2Int>, count: int, ps: seq<Vector2Int>, ns: seq<Label>,
                    before: seq<AgentView>, meals: seq<Meal>)
      requires Served(food, count, ps, ns, before, meals, |agents|) && |agents| == 2
      requires count == |food| && forall f :: f in food ==> InMap(grid, f)
      requires forall j :: 0 <= j < |agents| ==> Quiescent(before[j]) && Placed(before[j], grid)
      ensures AllServed(food, ps, before, meals)
    {
      forall j | 0 <= j < |agents| ensures Quiescent(agents[j].View()) && Placed(agents[j].View(), grid) {
        EatKeepsQuiescent(before[j], grid, meals[j].relief, meals[j].gain);
      }
      FoodLeftSubset(food, ps, |agents|);
      forall f | f in foodSpaces ensures InMap(grid, f) {
        assert f in multiset(foodSpaces);
      }
    }

    /** After the first loop of `Update`, which started from the list
        `food`: the agents are still quiescent and on the map, each ate
        (`meals`) exactly when its cell still held food and its view is
        then its view `before` fed with that meal, the list is what those
        meals left, all of it on the map, and the counter matches it. */
    ghost predicate AllServed(food: seq<Vector2Int>, ps: seq<Vector2Int>, before: seq<AgentView>, meals: seq<Meal>)
      reads this, agents, States()
    {
      AgentsOk() && |before| == |agents| == |ps| &&
      (forall j :: 0 <= j < |agents| ==> agents[j].position == ps[j]) &&
      MealsOf(food, ps, meals) &&
      foodSpaces == FoodLeft(food, ps, |agents|) && currentFoodSpaces == |foodSpaces| &&
      (forall f :: f in foodSpaces ==> InMap(grid, f)) &&
      (forall j :: 0 <= j < |agents| ==> FedAs(agents[j], before[j], meals[j]))
    }

    /** The agents' updates keep them quiescent and on the map. */
    lemma SteppedKeepsAgentsOk(before: seq<AgentView>, choices: seq<Choice>)
      requires Stepped(before, choices, |agents|) && |agents| == 2
      ensures AgentsOk()
    {
    }

    /** `ClearMap` and the first loop of `Update`: the map is blanked,
        then an agent standing on food eats and its short name is written
        on its cell. `before` holds the agents' views on entry and `meals`
        what each of them ate. */
    method FeedAndMark() returns (ghost before: seq<AgentView>, ghost meals: seq<Meal>)
      requires grid.Length0 == XMax && grid.Length1 == YMax && AgentsOk()
      requires currentFoodSpaces == |foodSpaces| && forall f :: f in foodSpaces ==> InMap(grid, f)
      modifies grid, this`foodSpaces, this`currentFoodSpaces, agents`hunger, agents`energy
      ensures |before| == |agents| && forall j :: 0 <= j < |agents| ==> before[j] == old(agents[j].View())
      ensures AllServed(old(foodSpaces), PositionsOf(agents), before, meals)
      ensures forall x, y :: 0 <= x < XMax && 0 <= y < YMax ==>
        grid[x, y] == PaintedBy(Vector2Int(x, y), PositionsOf(agents), NamesOf(agents), |agents|)
    {
      ClearMap();
      ghost var ps, ns := PositionsOf(agents), NamesOf(agents);
      before := [agents[0].View(), agents[1].View()];
      meals := [NoMeal, NoMeal];
      ServedNone(ps, ns, before);
      var i := 0;
      while i < |agents|
        invariant i <= |agents| && Served(old(foodSpaces), old(currentFoodSpaces), ps, ns, before, meals, i)
      {
        meals := Serve(agents[i], i, old(foodSpaces), old(currentFoodSpaces), ps, ns, before, meals);
        i := i + 1;
      }
      ServedAll(old(foodSpaces), old(currentFoodSpaces), ps, ns, before, meals);
    }

    /** Before the first turn nobody has eaten and the map is blank. */
    lemma ServedNone(ps: seq<Vector2Int>, ns: seq<Label>, before: seq<AgentView>)
      requires grid.Length0 == XMax && grid.Length1 == YMax && AgentsOk() && 0 <= currentFoodSpaces
      requires forall x, y :: 0 <= x < XMax && 0 <= y < YMax ==> grid[x, y] == Blank
      requires ps == PositionsOf(agents) && ns == NamesOf(agents) && before == [agents[0].View(), agents[1].View()]
      ensures Served(foodSpaces, currentFoodSpaces, ps, ns, before, [NoMeal, NoMeal], 0)
    {
    }

    /** After the turns of the first `i` agents: each of them ate when its
        cell still held food, the list and the counter lost those meals,
        and the map shows their short names, a later one over an earlier
        one. `food` and `count` are the list and the counter before the
        first turn, `ps`, `ns` and `before` the agents' positions, short
        names and views then. */
    ghost predicate Served(food: seq<Vector2Int>, count: int, ps: seq<Vector2Int>, ns: seq<Label>,
                           before: seq<AgentView>, meals: seq<Meal>, i: nat)
      reads this, grid, agents, States()
    {
      grid.Length0 == XMax && grid.Length1 == YMax &&
      |agents| == |ps| == |ns| == |before| == |meals| && i <= |agents| &&
      (forall j, k :: 0 <= j < k < |agents| ==> agents[j] != agents[k]) &&
      (forall j :: 0 <= j < |agents| ==>
        agents[j].position == ps[j] && agents[j].shortName == ns[j] && InMap(grid, ps[j])) &&
      (forall j :: 0 <= j < |agents| ==> MealFits(meals[j]) && meals[j].ate == (j < i && Eats(food, ps, j))) &&
      foodSpaces == FoodLeft(food, ps, i) &&
      currentFoodSpaces == Max(0, count - (|food| - |foodSpaces|)) &&
      (forall j :: 0 <= j < |agents| ==> FedAs(agents[j], before[j], meals[j])) &&
      (forall x, y :: 0 <= x < XMax && 0 <= y < YMax ==> grid[x, y] == PaintedBy(Vector2Int(x, y), ps, ns, i))
    }

    /** The turn of the `i`th agent in the first loop of `Update`. */
    method Serve(agent: Agent, i: nat, ghost food: seq<Vector2Int>, ghost count: int, ghost ps: seq<Vector2Int>,
                 ghost ns: seq<Label>, ghost before: seq<AgentView>, ghost meals: seq<Meal>)
      returns (ghost meals1: seq<Meal>)
      requires i < |agents| && agent == agents[i] && Served(food, count, ps, ns, before, meals, i)
      modifies grid, this`foodSpaces, this`currentFoodSpaces, agent`hunger, agent`energy
      ensures Served(food, count, ps, ns, before, meals1, i + 1)
    {
      ghost var meal := Feed(agent, before[i]);
      meals1 := meals[i := meal];
      Stamp(agent, ps, ns, i);
    }

    /** Writes the short name of the `i`th agent on its cell: the map then
        shows the first `i + 1` agents, a later one over an earlier one. */
    method Stamp(agent: Agent, ghost ps: seq<Vector2Int>, ghost ns: seq<Label>, ghost i: nat)
      requires grid.Length0 == XMax && grid.Length1 == YMax
      requires i < |ps| == |ns| && agent.position == ps[i] && agent.shortName == ns[i] && InMap(grid, ps[i])
      requires forall x, y :: 0 <= x < XMax && 0 <= y < YMax ==>
        grid[x, y] == PaintedBy(Vector2Int(x, y), ps, ns, i)
      modifies grid
      ensures forall x, y :: 0 <= x < XMax && 0 <= y < YMax ==>
        grid[x, y] == PaintedBy(Vector2Int(x, y), ps, ns, i + 1)
    {
      grid[agent.position.x, agent.position.y] := agent.shortName;
    }

    /** `a` is a valid agent whose view is `v` after `meal`. */
    static ghost predicate FedAs(a: Agent, v: AgentView, meal: Meal)
      reads a, a.state
    {
      a.Valid() && a.View() == Fed(v, meal)
    }

    /** The body of the first loop of `Update` up to the marking: an agent
        standing on food eats (relief drawn from `[30, 50)`, energy gain
        from `[10, 30)`), the first tile on its cell leaves the list and the
        counter drops by one but not below zero. The ghost results are the
        draws; they are in range even when nothing was drawn. */
    method Feed(agent: Agent, ghost v: AgentView) returns (ghost meal: Meal)
      requires agent.Valid() && agent.View() == v
      modifies agent`hunger, agent`energy, this`foodSpaces, this`currentFoodSpaces
      ensures meal.ate <==> agent.position in old(foodSpaces)
      ensures MealFits(meal)
      ensures foodSpaces == RemoveFirst(old(foodSpaces), agent.position)
      ensures currentFoodSpaces == if meal.ate then Max(0, old(currentFoodSpaces) - 1) else old(currentFoodSpaces)
      ensures FedAs(agent, v, meal)
    {
      meal := NoMeal;
      if agent.position in foodSpaces {
        var hunger :| 30 <= hunger < 50;
        var energy :| 10 <= energy < 30;
        // The source eats first; the meal and the list are different
        // objects, so the order does not matter.
        currentFoodSpaces := Max(0, currentFoodSpaces - 1);
        foodSpaces := RemoveFirst(foodSpaces, agent.position);
        agent.Eat(hunger, energy);
        meal := Meal(true, hunger, energy);
      }
    }

    /** The second loop of `Update`: "FD" on every food tile, over the short
        names the first loop wrote. */
    method MarkFood(ghost ps: seq<Vector2Int>, ghost ns: seq<Label>)
      requires grid.Length0 == XMax && grid.Length1 == YMax && |ps| == |ns|
      requires forall f :: f in foodSpaces ==> InMap(grid, f)
      requires forall x, y :: 0 <= x < XMax && 0 <= y < YMax ==>
        grid[x, y] == PaintedBy(Vector2Int(x, y), ps, ns, |ps|)
      modifies grid
      ensures Painted(grid, foodSpaces, ps, ns)
    {
      var k := 0;
      while k < |foodSpaces|
        invariant 0 <= k <= |foodSpaces|
        invariant forall x, y :: 0 <= x < XMax && 0 <= y < YMax ==>
          grid[x, y] == if Vector2Int(x, y) in foodSpaces[..k] then Food else PaintedBy(Vector2Int(x, y), ps, ns, |ps|)
      {
        var spot := foodSpaces[k];
        assert spot in foodSpaces;
        grid[spot.x, spot.y] := Food;
        assert foodSpaces[..k + 1] == foodSpaces[..k] + [spot];
        k := k + 1;
      }
      assert foodSpaces[..k] == foodSpaces;
    }

    /** The third loop of `Update`: every agent, in array order, runs
        `Agent.Update` against the marked map, which no agent changes.
        `before` holds the agents' views on entry. `ok` is false when an
        evaluation faulted, which needs a map without food. */
    method UpdateAgents() returns (ok: bool, ghost before: seq<AgentView>, ghost choices: seq<Choice>)
      requires AgentsOk()
      modifies agents, States()
      ensures |before| == |agents| && forall j :: 0 <= j < |agents| ==> before[j] == old(agents[j].View())
      ensures |Labelled(grid, Food)| > 0 ==> ok
      ensures ok ==> Stepped(before, choices, |agents|)
    {
      before := [agents[0].View(), agents[1].View()];
      ok, choices := true, [];
      var i := 0;
      while i < |agents|
        invariant i <= |agents| && Stepped(before, choices, i)
        invariant forall j :: i <= j < |agents| ==> agents[j].state == old(agents[j].state)
      {
        var agentOk;
        agentOk, choices := Step(agents[i], i, before, choices);
        if !agentOk {
          ok := false;
          return;
        }
        i := i + 1;
      }
    }

    /** After the first `i` agents ran `Agent.Update` with the draws in
        `choices`: each of them went from its view in `before` to the view
        `Updated` gives and stays quiescent and on the map, and the others
        still have their views from `before`. */
    ghost predicate Stepped(before: seq<AgentView>, choices: seq<Choice>, i: nat)
      reads agents, States(), grid
    {
      |agents| == |before| && i <= |agents| && |choices| == i &&
      (forall j, k :: 0 <= j < k < |agents| ==> agents[j] != agents[k]) &&
      (forall j :: 0 <= j < |agents| ==> agents[j].Valid()) &&
      (forall j :: i <= j < |agents| ==>
        agents[j].View() == before[j] && Quiescent(before[j]) && Placed(before[j], grid)) &&
      (forall j :: 0 <= j < i ==> Moved(agents[j], before[j], grid, choices[j]))
    }

    /** `a` is a quiescent agent on the map that went from `v` to its view
        by an update with the draws in `c`. */
    static ghost predicate Moved(a: Agent, v: AgentView, grid: array2<Label>, c: Choice)
      reads a, a.state, grid
    {
      && a.Valid() && Quiescent(a.View()) && Placed(a.View(), grid)
      && Placed(v, grid) && DrawsFit(grid, c.pick, c.dx, c.dy)
      && Updated(v, grid, c.pick, c.dx, c.dy) == Some(a.View())
    }

    /** The turn of the `i`th agent in the third loop of `Update`. */
    method Step(agent: Agent, i: nat, ghost before: seq<AgentView>, ghost choices: seq<Choice>)
      returns (ok: bool, ghost choices1: seq<Choice>)
      requires i < |agents| && agent == agents[i] && Stepped(before, choices, i)
      modifies agent, agent.state
      ensures |Labelled(grid, Food)| > 0 ==> ok
      ensures ok ==> Stepped(before, choices1, i + 1)
    {
      ghost var pick, dx, dy;
      ok, pick, dx, dy := agent.Update(grid);
      UpdateFaultsIff(before[i], grid, pick, dx, dy);
      if ok {
        UpdateKeepsQuiescent(before[i], grid, pick, dx, dy);
      }
      choices1 := choices + [Choice(pick, dx, dy)];
    }

    /** `ClearMap`: every cell becomes blank. */
    method ClearMap()
      modifies grid
      ensures forall x, y :: 0 <= x < grid.Length0 && 0 <= y < grid.Length1 ==> grid[x, y] == Blank
    {
      var x := 0;
      while x < grid.Length0
        invariant 0 <= x <= grid.Length0
        invariant forall i, j :: 0 <= i < x && 0 <= j < grid.Length1 ==> grid[i, j] == Blank
      {
        var y := 0;
        while y < grid.Length1
          invariant 0 <= y <= grid.Length1
          invariant forall i, j :: 0 <= i < x && 0 <= j < grid.Length1 ==> grid[i, j] == Blank
          invariant forall j :: 0 <= j < y ==> grid[x, j] == Blank
        {
          grid[x, y] := Blank;
          y := y + 1;
        }
        x := x + 1;
      }
    }

    /** `SpawnFood`: below four pieces, append `4 - currentFoodSpaces`
        tiles drawn from the cells that were free when it started, and set
        the counter to four. The map is not updated as tiles are added, so
        a cell can be drawn twice. `ok` is false when there is no free cell
        to draw from. */
    method SpawnFood() returns (ok: bool)
      modifies this`foodSpaces, this`currentFoodSpaces
      ensures old(currentFoodSpaces) >= MaxFoodPieces ==> ok
      ensures old(currentFoodSpaces) < MaxFoodPieces ==> (ok <==> |Labelled(grid, Blank)| > 0)
      ensures !ok || old(currentFoodSpaces) >= MaxFoodPieces ==>
        foodSpaces == old(foodSpaces) && currentFoodSpaces == old(currentFoodSpaces)
      ensures ok && old(currentFoodSpaces) < MaxFoodPieces ==>
        && currentFoodSpaces == MaxFoodPieces
        && |foodSpaces| == |old(foodSpaces)| + MaxFoodPieces - old(currentFoodSpaces)
        && foodSpaces[..|old(foodSpaces)|] == old(foodSpaces)
        && forall k :: |old(foodSpaces)| <= k < |foodSpaces| ==> Marked(grid, Blank, foodSpaces[k])
    {
      ok := true;
      if currentFoodSpaces < MaxFoodPieces {
        var difference;
        if currentFoodSpaces == 0 {
          difference := MaxFoodPieces;
        } else {
          difference := MaxFoodPieces - currentFoodSpaces;
        }
        var free := FreeSpaces(grid);
        if |free| == 0 {
          // `freeSpaces[0]` on an empty list throws before anything is added.
          ok := false;
          return;
        }
        var counter := 0;
        // A `do … while`; `difference` is at least one, so the first test holds.
        while counter < difference
          invariant 0 <= counter <= difference
          invariant |foodSpaces| == |old(foodSpaces)| + counter
          invariant foodSpaces[..|old(foodSpaces)|] == old(foodSpaces)
          invariant forall k :: |old(foodSpaces)| <= k < |foodSpaces| ==> Marked(grid, Blank, foodSpaces[k])
        {
          var index :| 0 <= index < |free|;
          var position := free[index];
          if grid[position.x, position.y] == Blank {
            foodSpaces := foodSpaces + [position];
            counter := counter + 1;
          }
        }
        currentFoodSpaces := MaxFoodPieces;
      }
    }
  }
}
