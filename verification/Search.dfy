/** The per-edge search of the diagram router: best-first over (cell, incoming direction) with a
    heap that keeps superseded entries, stopping at the first goal popped. */
module Search {
  import opened Options
  import opened Routes

  /** A cell together with the move that entered it; the initial state has no move. */
  datatype State = State(cell: Cell, dx: int, dy: int)

  /** A heap entry: estimated total, cost so far, state. */
  datatype Entry = Entry(estimate: int, cost: int, state: State)

  /** Costs at or above this are never recorded. */
  const SENTINEL: nat := 1_000_000_000

  const MOVES: seq<(int, int)> := [(1, 0), (-1, 0), (0, 1), (0, -1)]

  // ----- the heap: a multiset with least-entry extraction -----

  /** The tuple order heapq compares entries by. */
  predicate EntryLess(a: Entry, b: Entry) {
    || a.estimate < b.estimate
    || (a.estimate == b.estimate
        && (|| a.cost < b.cost
            || (a.cost == b.cost && StateLess(a.state, b.state))))
  }

  predicate StateLess(a: State, b: State) {
    || CellLess(a.cell, b.cell)
    || (a.cell == b.cell && (a.dx < b.dx || (a.dx == b.dx && a.dy < b.dy)))
  }

  /** An entry as the flat tuple of numbers that is compared. */
  ghost function Key(e: Entry): seq<int> {
    [e.estimate, e.cost, e.state.cell.x, e.state.cell.y, e.state.dx, e.state.dy]
  }

  /** Entries compare by the first number in which they differ. */
  lemma {:induction false} FirstDifferenceDecides(a: Entry, b: Entry)
    ensures EntryLess(a, b) <==> exists i :: LessAt(Key(a), Key(b), i)
  {
    if EntryLess(a, b) {
      var i := if a.estimate != b.estimate then 0 else if a.cost != b.cost then 1
               else if a.state.cell.x != b.state.cell.x then 2 else if a.state.cell.y != b.state.cell.y then 3
               else if a.state.dx != b.state.dx then 4 else 5;
      assert LessAt(Key(a), Key(b), i);
    }
    forall i | LessAt(Key(a), Key(b), i)
      ensures EntryLess(a, b)
    {
      assert i > 0 ==> Key(a)[0] == Key(b)[0];
      assert i > 1 ==> Key(a)[1] == Key(b)[1];
      assert i > 2 ==> Key(a)[2] == Key(b)[2];
      assert i > 3 ==> Key(a)[3] == Key(b)[3];
      assert i > 4 ==> Key(a)[4] == Key(b)[4];
    }
  }

  ghost predicate LessAt(s: seq<int>, t: seq<int>, i: int) {
    0 <= i < |s| && i < |t| && s[i] < t[i] && forall j :: 0 <= j < i ==> s[j] == t[j]
  }

  ghost predicate IsLeast(e: Entry, queue: multiset<Entry>) {
    e in queue && forall o :: o in queue ==> o == e || EntryLess(e, o)
  }

  /** A non-empty heap has a least entry. */
  lemma {:induction false} LeastExists(queue: multiset<Entry>) returns (e: Entry)
    requires |queue| > 0
    ensures IsLeast(e, queue)
    decreases |queue|
  {
    e :| e in queue;
    var rest := queue[e := 0];
    if |rest| > 0 {
      var m := LeastExists(rest);
      e := if EntryLess(m, e) then m else e;
    }
    assert forall o :: o in queue ==> o in rest || rest == queue[o := 0];
  }

  method HeapPop(queue: multiset<Entry>) returns (e: Entry, rest: multiset<Entry>)
    requires |queue| > 0
    ensures IsLeast(e, queue)
    ensures rest == queue - multiset{e}
  {
    ghost var witness_ := LeastExists(queue);
    e :| e in queue && forall o | o in queue :: o == e || EntryLess(e, o);
    rest := queue - multiset{e};
  }

  // ----- steps between states -----

  function Initial(start: Cell): State {
    State(start, 0, 0)
  }

  function Neighbour(s: State, j: nat): State
    requires j < |MOVES|
  {
    State(Cell(s.cell.x + MOVES[j].0, s.cell.y + MOVES[j].1), MOVES[j].0, MOVES[j].1)
  }

  ghost predicate Step(g: Grid, s: State, t: State) {
    && Free(g, t.cell)
    && Abs(t.dx) + Abs(t.dy) == 1
    && t.cell == Cell(s.cell.x + t.dx, s.cell.y + t.dy)
  }

  function StepWeight(occupied: Usage, s: State, t: State): nat {
    STEP_COST
    + (if (s.dx != 0 || s.dy != 0) && (t.dx, t.dy) != (s.dx, s.dy) then BEND_COST else 0)
    + UseCount(occupied, Between(s.cell, t.cell)) * REUSE_COST
  }

  /** The search state a walk ends in. */
  ghost function EndState(cells: seq<Cell>): State
    requires |cells| >= 1
  {
    var n := |cells|;
    if n == 1 then Initial(cells[0])
    else State(cells[n - 1], cells[n - 1].x - cells[n - 2].x, cells[n - 1].y - cells[n - 2].y)
  }

  /** Extending a walk by one cell is one step of the search, at the same price. */
  lemma {:induction false} WalkStep(g: Grid, occupied: Usage, cells: seq<Cell>, i: nat)
    requires IsWalk(g, cells) && i + 1 < |cells|
    ensures Step(g, EndState(cells[..i + 1]), EndState(cells[..i + 2]))
    ensures RouteCost(occupied, cells[..i + 2])
            == RouteCost(occupied, cells[..i + 1])
               + StepWeight(occupied, EndState(cells[..i + 1]), EndState(cells[..i + 2]))
  {
    var longer := cells[..i + 2];
    assert longer[..|longer| - 1] == cells[..i + 1];
  }

  // ----- what the loop keeps true -----

  type Costs = map<State, nat>
  type Parents = map<State, State>

  function FreshEntry(start: Cell, finish: Cell, costs: Costs, s: State): Entry
    requires s in costs
  {
    if s == Initial(start) then Entry(0, 0, s)
    else Entry(costs[s] + Distance(s.cell, finish), costs[s], s)
  }

  ghost predicate Open(start: Cell, finish: Cell, queue: multiset<Entry>, costs: Costs, s: State)
    requires s in costs
  {
    FreshEntry(start, finish, costs, s) in queue
  }

  /** `t` is recorded at least as cheaply as through `s`, or only at a price over the sentinel. */
  ghost predicate Relaxed(occupied: Usage, costs: Costs, s: State, t: State)
    requires s in costs
  {
    var through := costs[s] + StepWeight(occupied, s, t);
    through >= SENTINEL || (t in costs && costs[t] <= through)
  }

  ghost predicate Expanded(g: Grid, occupied: Usage, finish: Cell, costs: Costs, s: State)
    requires s in costs
  {
    s.cell != finish && forall t :: Step(g, s, t) ==> Relaxed(occupied, costs, s, t)
  }

  /** Costs below the sentinel, and every state but the first reached from a cheaper parent. */
  ghost predicate TreeInv(g: Grid, occupied: Usage, start: Cell, costs: Costs, parents: Parents) {
    && Initial(start) in costs && costs[Initial(start)] == 0
    && (forall s :: s in parents <==> s in costs && s != Initial(start))
    && (forall s :: s in costs ==> costs[s] < SENTINEL)
    && (forall s :: s in parents ==>
          && parents[s] in costs
          && Step(g, parents[s], s)
          && costs[parents[s]] + StepWeight(occupied, parents[s], s) <= costs[s])
  }

  /** Every entry was fresh when pushed; superseded entries are dearer than what is recorded. */
  ghost predicate QueueInv(start: Cell, finish: Cell, queue: multiset<Entry>, costs: Costs) {
    forall e :: e in queue ==>
      && e.state in costs
      && costs[e.state] <= e.cost
      && (if e.state == Initial(start) then e.estimate == 0 && e.cost == 0
          else e.estimate == e.cost + Distance(e.state.cell, finish))
  }

  /** Every recorded state still waits in the heap or has had all its moves considered. The state
      `except` is the one being expanded. */
  ghost predicate FrontierInv(g: Grid, occupied: Usage, start: Cell, finish: Cell,
                              queue: multiset<Entry>, costs: Costs, except: Option<State>)
  {
    forall s :: s in costs && except != Some(s) ==>
      Open(start, finish, queue, costs, s) || Expanded(g, occupied, finish, costs, s)
  }

  // ----- termination: a finite state space and a falling total -----

  ghost function StateSpace(g: Grid, start: Cell): set<State> {
    {Initial(start)}
    + set x, y, m | 1 <= x < g.columns && 11 <= y < g.rows && m in MOVES :: State(Cell(x, y), m.0, m.1)
  }

  ghost function Recorded(costs: Costs, s: State): nat {
    if s in costs then costs[s] else SENTINEL
  }

  /** Total of the recorded costs over the space, unreached states counting as the sentinel. */
  ghost function Total(space: set<State>, costs: Costs): nat {
    if space == {} then 0
    else var s := AnyOf(space); Recorded(costs, s) + Total(space - {s}, costs)
  }

  lemma {:induction false} TotalSplit(space: set<State>, costs: Costs, s: State)
    requires s in space
    ensures Total(space, costs) == Recorded(costs, s) + Total(space - {s}, costs)
    decreases space
  {
    var p := AnyOf(space);
    if p != s {
      TotalSplit(space - {p}, costs, s);
      TotalSplit(space - {s}, costs, p);
      assert space - {p} - {s} == space - {s} - {p};
    }
  }

  lemma {:induction false} TotalSame(space: set<State>, costs: Costs, costs': Costs)
    requires forall s :: s in space ==> Recorded(costs, s) == Recorded(costs', s)
    ensures Total(space, costs) == Total(space, costs')
    decreases space
  {
    if space != {} {
      TotalSame(space - {AnyOf(space)}, costs, costs');
    }
  }

  /** Recording a lower cost anywhere in the space lowers the total. */
  lemma {:induction false} TotalFalls(space: set<State>, costs: Costs, s: State, cost: nat)
    requires s in space && cost < Recorded(costs, s)
    ensures Total(space, costs[s := cost]) < Total(space, costs)
  {
    TotalSplit(space, costs, s);
    TotalSplit(space, costs[s := cost], s);
    TotalSame(space - {s}, costs, costs[s := cost]);
  }

  // ----- expanding one state -----

  ghost predicate RelaxedUpTo(g: Grid, occupied: Usage, costs: Costs, s: State, j: nat)
    requires s in costs && j <= |MOVES|
  {
    forall k :: 0 <= k < j && Free(g, Neighbour(s, k).cell) ==> Relaxed(occupied, costs, s, Neighbour(s, k))
  }

  lemma {:induction false} AllMovesRelaxed(g: Grid, occupied: Usage, finish: Cell, costs: Costs, s: State)
    requires s in costs && s.cell != finish && RelaxedUpTo(g, occupied, costs, s, |MOVES|)
    ensures Expanded(g, occupied, finish, costs, s)
  {
    forall t | Step(g, s, t)
      ensures Relaxed(occupied, costs, s, t)
    {
      var k := if t.dx == 1 then 0 else if t.dx == -1 then 1 else if t.dy == 1 then 2 else 3;
      assert t == Neighbour(s, k);
    }
  }

  /** Recording `t` below its old cost, entered from `s`, keeps the parent tree. */
  lemma {:induction false} PushKeepsTree(g: Grid, occupied: Usage, start: Cell, costs: Costs, parents: Parents,
                                         s: State, t: State)
    requires TreeInv(g, occupied, start, costs, parents)
    requires s in costs && Step(g, s, t) && t != Initial(start)
    requires costs[s] + StepWeight(occupied, s, t) < Recorded(costs, t)
    ensures TreeInv(g, occupied, start, costs[t := costs[s] + StepWeight(occupied, s, t)], parents[t := s])
  {
  }

  /** A free neighbour is one step away and inside the finite state space. */
  lemma {:induction false} NeighbourStep(g: Grid, start: Cell, s: State, j: nat)
    requires j < |MOVES| && Free(g, Neighbour(s, j).cell)
    ensures Step(g, s, Neighbour(s, j))
    ensures Neighbour(s, j) != s && Neighbour(s, j) != Initial(start)
    ensures Neighbour(s, j) in StateSpace(g, start)
  {
  }

  lemma {:induction false} PushKeepsQueue(start: Cell, finish: Cell, queue: multiset<Entry>, costs: Costs, t: State,
                                          cost: nat)
    requires QueueInv(start, finish, queue, costs)
    requires t != Initial(start) && cost < Recorded(costs, t)
    ensures QueueInv(start, finish, queue + multiset{Entry(cost + Distance(t.cell, finish), cost, t)}, costs[t := cost])
  {
  }

  /** What holds while `s` is being expanded, with its first `j` moves considered. */
  ghost predicate Expanding(g: Grid, occupied: Usage, start: Cell, finish: Cell, s: State, j: nat,
                            queue: multiset<Entry>, costs: Costs, parents: Parents)
  {
    && j <= |MOVES| && s in costs
    && TreeInv(g, occupied, start, costs, parents)
    && QueueInv(start, finish, queue, costs)
    && FrontierInv(g, occupied, start, finish, queue, costs, Some(s))
    && RelaxedUpTo(g, occupied, costs, s, j)
  }

  lemma {:induction false} PushKeepsRecords(g: Grid, occupied: Usage, start: Cell, finish: Cell, s: State, j: nat,
                                            queue: multiset<Entry>, costs: Costs, parents: Parents, t: State, cost: nat)
    requires TreeInv(g, occupied, start, costs, parents) && QueueInv(start, finish, queue, costs)
    requires s in costs && j < |MOVES| && t == Neighbour(s, j) && Free(g, t.cell)
    requires cost == costs[s] + StepWeight(occupied, s, t) < Recorded(costs, t)
    ensures TreeInv(g, occupied, start, costs[t := cost], parents[t := s])
    ensures QueueInv(start, finish, queue + multiset{Entry(cost + Distance(t.cell, finish), cost, t)}, costs[t := cost])
    ensures Total(StateSpace(g, start), costs[t := cost]) < Total(StateSpace(g, start), costs)
  {
    NeighbourStep(g, start, s, j);
    PushKeepsTree(g, occupied, start, costs, parents, s, t);
    PushKeepsQueue(start, finish, queue, costs, t, cost);
    TotalFalls(StateSpace(g, start), costs, t, cost);
  }

  lemma {:induction false} PushKeepsProgress(g: Grid, occupied: Usage, start: Cell, finish: Cell, s: State, j: nat,
                                             queue: multiset<Entry>, costs: Costs, t: State, cost: nat)
    requires s in costs && j < |MOVES| && t == Neighbour(s, j) && Free(g, t.cell)
    requires FrontierInv(g, occupied, start, finish, queue, costs, Some(s)) && RelaxedUpTo(g, occupied, costs, s, j)
    requires cost == costs[s] + StepWeight(occupied, s, t) < Recorded(costs, t)
    ensures FrontierInv(g, occupied, start, finish, queue + multiset{Entry(cost + Distance(t.cell, finish), cost, t)},
                        costs[t := cost], Some(s))
    ensures RelaxedUpTo(g, occupied, costs[t := cost], s, j + 1)
  {
  }

  lemma {:induction false} SkipMove(g: Grid, occupied: Usage, costs: Costs, s: State, j: nat)
    requires s in costs && j < |MOVES| && RelaxedUpTo(g, occupied, costs, s, j)
    requires Free(g, Neighbour(s, j).cell) ==> Relaxed(occupied, costs, s, Neighbour(s, j))
    ensures RelaxedUpTo(g, occupied, costs, s, j + 1)
  {
  }

  /** Considers one move out of `s`. */
  method Relax(g: Grid, occupied: Usage, ghost start: Cell, finish: Cell, s: State, j: nat,
               queue0: multiset<Entry>, costs0: Costs, parents0: Parents)
    returns (queue: multiset<Entry>, costs: Costs, parents: Parents)
    requires j < |MOVES| && Expanding(g, occupied, start, finish, s, j, queue0, costs0, parents0)
    ensures Expanding(g, occupied, start, finish, s, j + 1, queue, costs, parents)
    ensures || (queue == queue0 && costs == costs0)
            || Total(StateSpace(g, start), costs) < Total(StateSpace(g, start), costs0)
  {
    queue, costs, parents := queue0, costs0, parents0;
    var t := Neighbour(s, j);
    if Free(g, t.cell) {
      var cost := costs0[s] + StepWeight(occupied, s, t);
      if cost < (if t in costs0 then costs0[t] else SENTINEL) {
        PushKeepsRecords(g, occupied, start, finish, s, j, queue0, costs0, parents0, t, cost);
        PushKeepsProgress(g, occupied, start, finish, s, j, queue0, costs0, t, cost);
        costs := costs0[t := cost];
        parents := parents0[t := s];
        queue := queue0 + multiset{Entry(cost + Distance(t.cell, finish), cost, t)};
        return;
      }
    }
    SkipMove(g, occupied, costs, s, j);
  }

  lemma {:induction false} LastExpanded(g: Grid, occupied: Usage, start: Cell, finish: Cell,
                                        queue: multiset<Entry>, costs: Costs, s: State)
    requires s in costs && s.cell != finish && RelaxedUpTo(g, occupied, costs, s, |MOVES|)
    requires FrontierInv(g, occupied, start, finish, queue, costs, Some(s))
    ensures FrontierInv(g, occupied, start, finish, queue, costs, None)
  {
    AllMovesRelaxed(g, occupied, finish, costs, s);
  }

  method Expand(g: Grid, occupied: Usage, ghost start: Cell, finish: Cell, s: State,
                queue0: multiset<Entry>, costs0: Costs, parents0: Parents)
    returns (queue: multiset<Entry>, costs: Costs, parents: Parents)
    requires s in costs0 && s.cell != finish
    requires TreeInv(g, occupied, start, costs0, parents0)
    requires QueueInv(start, finish, queue0, costs0)
    requires FrontierInv(g, occupied, start, finish, queue0, costs0, Some(s))
    ensures TreeInv(g, occupied, start, costs, parents)
    ensures QueueInv(start, finish, queue, costs)
    ensures FrontierInv(g, occupied, start, finish, queue, costs, None)
    ensures || (queue == queue0 && costs == costs0)
            || Total(StateSpace(g, start), costs) < Total(StateSpace(g, start), costs0)
  {
    queue, costs, parents := queue0, costs0, parents0;
    for j := 0 to |MOVES|
      invariant Expanding(g, occupied, start, finish, s, j, queue, costs, parents)
      invariant || (queue == queue0 && costs == costs0)
                || Total(StateSpace(g, start), costs) < Total(StateSpace(g, start), costs0)
    {
      queue, costs, parents := Relax(g, occupied, start, finish, s, j, queue, costs, parents);
    }
    LastExpanded(g, occupied, start, finish, queue, costs, s);
  }

  // ----- why the first goal popped is optimal -----

  /** Along any route cheaper than the sentinel, some state waits in the heap at no more than the
      route's own price up to it. */
  lemma {:induction false} OpenOnRoute(g: Grid, occupied: Usage, start: Cell, finish: Cell,
                                       queue: multiset<Entry>, costs: Costs, cells: seq<Cell>, from: nat)
    returns (i: nat)
    requires FrontierInv(g, occupied, start, finish, queue, costs, None)
    requires IsRoute(g, start, finish, cells) && RouteCost(occupied, cells) < SENTINEL
    requires from < |cells| && EndState(cells[..from + 1]) in costs
    requires costs[EndState(cells[..from + 1])] <= RouteCost(occupied, cells[..from + 1])
    ensures i < |cells| && EndState(cells[..i + 1]) in costs
    ensures Open(start, finish, queue, costs, EndState(cells[..i + 1]))
    ensures costs[EndState(cells[..i + 1])] <= RouteCost(occupied, cells[..i + 1])
    decreases |cells| - from
  {
    var s := EndState(cells[..from + 1]);
    if Open(start, finish, queue, costs, s) {
      i := from;
    } else {
      assert Expanded(g, occupied, finish, costs, s);
      assert s.cell == cells[from];
      WalkStep(g, occupied, cells, from);
      PrefixCost(g, occupied, cells, from + 1);
      assert Relaxed(occupied, costs, s, EndState(cells[..from + 2]));
      i := OpenOnRoute(g, occupied, start, finish, queue, costs, cells, from + 1);
    }
  }

  /** A least entry at the finish is no dearer than any open state can promise. */
  lemma {:induction false} LeastBelowOpen(start: Cell, finish: Cell, queue: multiset<Entry>, costs: Costs,
                                          e: Entry, s: State)
    requires QueueInv(start, finish, queue, costs)
    requires IsLeast(e, queue) && e.state.cell == finish
    requires s in costs && Open(start, finish, queue, costs, s)
    ensures e.cost <= costs[s] + Distance(s.cell, finish)
  {
    assert FreshEntry(start, finish, costs, s) in queue;
  }

  /** A heap whose least entry is a current goal entry can leave no cheaper route unexplored. */
  lemma {:induction false} GoalIsOptimal(g: Grid, occupied: Usage, start: Cell, finish: Cell,
                                         queue: multiset<Entry>, costs: Costs, parents: Parents, e: Entry,
                                         cells: seq<Cell>)
    requires TreeInv(g, occupied, start, costs, parents)
    requires QueueInv(start, finish, queue, costs)
    requires FrontierInv(g, occupied, start, finish, queue, costs, None)
    requires IsLeast(e, queue) && e.state.cell == finish
    requires IsRoute(g, start, finish, cells)
    ensures e.cost <= RouteCost(occupied, cells) || RouteCost(occupied, cells) >= SENTINEL
  {
    if RouteCost(occupied, cells) < SENTINEL {
      assert cells[..1] == [start];
      var i := OpenOnRoute(g, occupied, start, finish, queue, costs, cells, 0);
      RemainingCost(g, occupied, cells, i);
      LeastBelowOpen(start, finish, queue, costs, e, EndState(cells[..i + 1]));
    }
  }

  /** An empty heap with no goal seen means no route below the sentinel exists at all. */
  lemma {:induction false} ExhaustedMeansNone(g: Grid, occupied: Usage, start: Cell, finish: Cell,
                                              costs: Costs, parents: Parents, cells: seq<Cell>)
    requires TreeInv(g, occupied, start, costs, parents)
    requires FrontierInv(g, occupied, start, finish, multiset{}, costs, None)
    requires IsRoute(g, start, finish, cells)
    ensures RouteCost(occupied, cells) >= SENTINEL
  {
    if RouteCost(occupied, cells) < SENTINEL {
      assert cells[..1] == [start];
      var i := OpenOnRoute(g, occupied, start, finish, multiset{}, costs, cells, 0);
    }
  }

  // ----- rebuilding the route from the parent links -----

  /** `path` runs along parent links, newest state first. */
  ghost predicate ParentChain(parents: Parents, path: seq<State>) {
    forall i :: 0 <= i < |path| - 1 ==> path[i] in parents && path[i + 1] == parents[path[i]]
  }

  function Cells(path: seq<State>): (cells: seq<Cell>)
    ensures |cells| == |path|
    ensures forall i :: 0 <= i < |path| ==> cells[i] == path[i].cell
  {
    seq(|path|, i requires 0 <= i < |path| => path[i].cell)
  }

  function Reversed<T>(s: seq<T>): (r: seq<T>)
    ensures |r| == |s|
    ensures forall i :: 0 <= i < |s| ==> r[i] == s[|s| - 1 - i]
  {
    seq(|s|, i requires 0 <= i < |s| => s[|s| - 1 - i])
  }

  /** `path` starts at the initial state and each state is entered from the one before it. */
  ghost predicate ForwardChain(g: Grid, occupied: Usage, start: Cell, costs: Costs, path: seq<State>) {
    && |path| >= 1
    && path[0] == Initial(start)
    && (forall i :: 0 <= i < |path| ==> path[i] in costs)
    && costs[path[0]] == 0
    && forall i :: 0 < i < |path| ==>
         Step(g, path[i - 1], path[i])
         && costs[path[i - 1]] + StepWeight(occupied, path[i - 1], path[i]) <= costs[path[i]]
  }

  lemma {:induction false} ChainIsWalk(g: Grid, occupied: Usage, start: Cell, costs: Costs, path: seq<State>)
    requires ForwardChain(g, occupied, start, costs, path)
    ensures IsWalk(g, Cells(path))
    ensures forall i :: 0 <= i < |path| ==> EndState(Cells(path)[..i + 1]) == path[i]
  {
    var cells := Cells(path);
    forall i | 0 < i < |cells|
      ensures Distance(cells[i - 1], cells[i]) == 1 && Free(g, cells[i])
      ensures EndState(cells[..i + 1]) == path[i]
    {
      assert Step(g, path[i - 1], path[i]);
    }
  }

  lemma {:induction false} ChainCost(g: Grid, occupied: Usage, start: Cell, costs: Costs, path: seq<State>, i: nat)
    requires ForwardChain(g, occupied, start, costs, path) && i < |path|
    ensures RouteCost(occupied, Cells(path)[..i + 1]) <= costs[path[i]]
  {
    if i > 0 {
      ChainCost(g, occupied, start, costs, path, i - 1);
      ChainIsWalk(g, occupied, start, costs, path);
      WalkStep(g, occupied, Cells(path), i - 1);
    }
  }

  /** No move is made twice: recorded costs rise along the chain, so its states differ. */
  ghost predicate MovesDiffer(cells: seq<Cell>) {
    forall i, j :: 0 < i < j < |cells| ==> cells[i - 1] != cells[j - 1] || cells[i] != cells[j]
  }

  lemma {:induction false} ChainRises(g: Grid, occupied: Usage, start: Cell, costs: Costs, path: seq<State>,
                                      i: nat, j: nat)
    requires ForwardChain(g, occupied, start, costs, path) && i < j < |path|
    ensures costs[path[i]] < costs[path[j]]
    decreases j
  {
    if i + 1 < j {
      ChainRises(g, occupied, start, costs, path, i, j - 1);
    }
    assert Step(g, path[j - 1], path[j]);
  }

  lemma {:induction false} ChainPairDiffers(g: Grid, occupied: Usage, start: Cell, costs: Costs, path: seq<State>,
                                            i: nat, j: nat)
    requires ForwardChain(g, occupied, start, costs, path) && 0 < i < j < |path|
    ensures Cells(path)[i - 1] != Cells(path)[j - 1] || Cells(path)[i] != Cells(path)[j]
  {
    ChainRises(g, occupied, start, costs, path, i, j);
    assert Step(g, path[i - 1], path[i]);
    assert Step(g, path[j - 1], path[j]);
    assert path[i] != path[j];
  }

  lemma {:induction false} ChainMovesDiffer(g: Grid, occupied: Usage, start: Cell, costs: Costs, path: seq<State>)
    requires ForwardChain(g, occupied, start, costs, path)
    ensures MovesDiffer(Cells(path))
  {
    forall i: nat, j: nat | 0 < i < j < |path|
      ensures Cells(path)[i - 1] != Cells(path)[j - 1] || Cells(path)[i] != Cells(path)[j]
    {
      ChainPairDiffers(g, occupied, start, costs, path, i, j);
    }
  }

  lemma {:induction false} ParentChainReversed(g: Grid, occupied: Usage, start: Cell, costs: Costs, parents: Parents,
                                               path: seq<State>)
    requires TreeInv(g, occupied, start, costs, parents) && ParentChain(parents, path)
    requires |path| >= 1 && path[0] in costs && path[|path| - 1] == Initial(start)
    ensures ForwardChain(g, occupied, start, costs, Reversed(path))
  {
  }

  /** Parent links from a recorded state back to the first one spell a route at no more than its
      recorded cost. */
  lemma {:induction false} ParentChainIsRoute(g: Grid, occupied: Usage, start: Cell, costs: Costs, parents: Parents,
                                              path: seq<State>)
    requires TreeInv(g, occupied, start, costs, parents) && ParentChain(parents, path)
    requires |path| >= 1 && path[0] in costs && path[|path| - 1] == Initial(start)
    ensures IsRoute(g, start, path[0].cell, Cells(Reversed(path)))
    ensures RouteCost(occupied, Cells(Reversed(path))) <= costs[path[0]]
    ensures MovesDiffer(Cells(Reversed(path)))
  {
    var forward := Reversed(path);
    var cells := Cells(forward);
    ParentChainReversed(g, occupied, start, costs, parents, path);
    ChainIsWalk(g, occupied, start, costs, forward);
    ChainCost(g, occupied, start, costs, forward, |forward| - 1);
    assert cells[..|forward|] == cells;
    ChainMovesDiffer(g, occupied, start, costs, forward);
  }

  /** Parents are cheaper than their children, and only the first state has none. */
  ghost predicate Descends(start: Cell, costs: Costs, parents: Parents) {
    && (forall s :: s in parents ==> s in costs && parents[s] in costs && costs[parents[s]] < costs[s])
    && (forall s :: s in costs && s !in parents ==> s == Initial(start))
  }

  lemma {:induction false} TreeDescends(g: Grid, occupied: Usage, start: Cell, costs: Costs, parents: Parents)
    requires TreeInv(g, occupied, start, costs, parents)
    ensures Descends(start, costs, parents)
  {
    forall s | s in parents
      ensures costs[parents[s]] < costs[s]
    {
      assert STEP_COST <= StepWeight(occupied, parents[s], s);
    }
  }

  /** Follows the parents from a state to the first one. */
  method FollowParents(start: Cell, ghost costs: Costs, parents: Parents, found: State) returns (path: seq<State>)
    requires Descends(start, costs, parents) && found in costs
    ensures |path| >= 1 && path[0] == found && path[|path| - 1] == Initial(start) && ParentChain(parents, path)
  {
    path := [found];
    while path[|path| - 1] in parents
      invariant |path| >= 1 && path[0] == found && ParentChain(parents, path)
      invariant path[|path| - 1] in costs
      decreases costs[path[|path| - 1]]
    {
      path := path + [parents[path[|path| - 1]]];
    }
  }

  method Rebuild(g: Grid, occupied: Usage, start: Cell, ghost costs: Costs, parents: Parents, found: State)
    returns (cells: seq<Cell>)
    requires TreeInv(g, occupied, start, costs, parents)
    requires found in costs
    ensures IsRoute(g, start, found.cell, cells)
    ensures RouteCost(occupied, cells) <= costs[found]
    ensures MovesDiffer(cells)
  {
    TreeDescends(g, occupied, start, costs, parents);
    var path := FollowParents(start, costs, parents, found);
    ParentChainIsRoute(g, occupied, start, costs, parents, path);
    cells := Cells(Reversed(path));
  }

  /** The least heap entry is a current goal entry: its parent links spell a cheapest route. */
  method RouteToGoal(g: Grid, occupied: Usage, start: Cell, ghost finish: Cell, ghost queue: multiset<Entry>,
                     ghost costs: Costs, parents: Parents, e: Entry)
    returns (cells: seq<Cell>)
    requires TreeInv(g, occupied, start, costs, parents)
    requires QueueInv(start, finish, queue, costs)
    requires FrontierInv(g, occupied, start, finish, queue, costs, None)
    requires IsLeast(e, queue) && e.state.cell == finish && e.cost == costs[e.state]
    ensures IsRoute(g, start, finish, cells) && RouteCost(occupied, cells) < SENTINEL && MovesDiffer(cells)
    ensures forall other :: IsRoute(g, start, finish, other) ==>
              RouteCost(occupied, cells) <= RouteCost(occupied, other)
  {
    cells := Rebuild(g, occupied, start, costs, parents, e.state);
    forall other | IsRoute(g, start, finish, other)
      ensures RouteCost(occupied, cells) <= RouteCost(occupied, other)
    {
      GoalIsOptimal(g, occupied, start, finish, queue, costs, parents, e, other);
    }
  }

  // ----- the search -----

  /** A cheapest route if any route costs less than the sentinel; otherwise none does. */
  method FindRoute(g: Grid, occupied: Usage, start: Cell, finish: Cell) returns (r: Option<seq<Cell>>)
    ensures r.Some? ==>
              && IsRoute(g, start, finish, r.value)
              && RouteCost(occupied, r.value) < 1_000_000_000
              && MovesDiffer(r.value)
              && forall cells :: IsRoute(g, start, finish, cells) ==>
                   RouteCost(occupied, r.value) <= RouteCost(occupied, cells)
    ensures r.None? ==>
              forall cells :: IsRoute(g, start, finish, cells) ==> RouteCost(occupied, cells) >= 1_000_000_000
  {
    var initial := Initial(start);
    var queue := multiset{Entry(0, 0, initial)};
    var costs: Costs := map[initial := 0];
    var parents: Parents := map[];
    while |queue| > 0
      invariant TreeInv(g, occupied, start, costs, parents)
      invariant QueueInv(start, finish, queue, costs)
      invariant FrontierInv(g, occupied, start, finish, queue, costs, None)
      decreases Total(StateSpace(g, start), costs), |queue|
    {
      var e, rest := HeapPop(queue);
      if e.cost == costs[e.state] {
        if e.state.cell == finish {
          var cells := RouteToGoal(g, occupied, start, finish, queue, costs, parents, e);
          return Some(cells);
        }
        PopKeepsFrontier(g, occupied, start, finish, queue, costs, e, Some(e.state));
        queue, costs, parents := Expand(g, occupied, start, finish, e.state, rest, costs, parents);
      } else {
        PopKeepsFrontier(g, occupied, start, finish, queue, costs, e, None);
        queue := rest;
      }
    }
    assert queue == multiset{};
    forall cells | IsRoute(g, start, finish, cells)
      ensures RouteCost(occupied, cells) >= SENTINEL
    {
      ExhaustedMeansNone(g, occupied, start, finish, costs, parents, cells);
    }
    return None;
  }

  /** Popping a superseded entry loses nothing; popping a current one concerns its state only. */
  lemma {:induction false} PopKeepsFrontier(g: Grid, occupied: Usage, start: Cell, finish: Cell,
                                            queue: multiset<Entry>, costs: Costs, e: Entry, except: Option<State>)
    requires e in queue && e.state in costs
    requires FrontierInv(g, occupied, start, finish, queue, costs, None)
    requires QueueInv(start, finish, queue, costs) && Initial(start) in costs && costs[Initial(start)] == 0
    requires except == if e.cost == costs[e.state] then Some(e.state) else None
    ensures FrontierInv(g, occupied, start, finish, queue - multiset{e}, costs, except)
  {
  }
}
