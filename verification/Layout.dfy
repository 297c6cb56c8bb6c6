/** Placing the node cards three to a row and marking the clearance cells around them. Pixels
    throughout; the sizes involved turn out to be multiples of the twelve-pixel cell. */
module Layout {
  import opened Routes

  /** `lines` is how many lines the wrapped label takes; `question` whether it contains a '?'. */
  datatype Node = Node(id: string, lines: nat, question: bool)

  datatype Edge = Edge(source: string, target: string)

  datatype Diagram = Diagram(nodes: seq<Node>, edges: seq<Edge>, flowchart: bool)

  /** A card in pixels. */
  datatype Rect = Rect(x: int, y: int, width: int, height: int)

  function Max(a: int, b: int): int {
    if a < b then b else a
  }

  /** Edge ends at `id`; a self-loop counts twice. */
  function Degree(edges: seq<Edge>, id: string): nat {
    if edges == [] then 0
    else
      var e := edges[|edges| - 1];
      Degree(edges[..|edges| - 1], id) + (if e.source == id then 1 else 0) + (if e.target == id then 1 else 0)
  }

  lemma {:induction false} DegreeGrows(edges: seq<Edge>, id: string, k: nat)
    requires k <= |edges|
    ensures Degree(edges[..k], id) <= Degree(edges, id)
    decreases |edges| - k
  {
    if k == |edges| {
      assert edges[..k] == edges;
    } else {
      assert edges[..k + 1][..k] == edges[..k];
      DegreeGrows(edges, id, k + 1);
    }
  }

  function IsDecision(d: Diagram, k: nat): bool
    requires k < |d.nodes|
  {
    d.nodes[k].question && d.flowchart
  }

  function Height(d: Diagram, k: nat): int
    requires k < |d.nodes|
  {
    var natural := Max(Max(108, 48 + d.nodes[k].lines * 23), 36 + Degree(d.edges, d.nodes[k].id) * 12);
    var tall := if IsDecision(d, k) then Max(natural, 180) else natural;
    ((tall + 11) / 12) * 12
  }

  function Heights(d: Diagram): (heights: seq<int>)
    ensures |heights| == |d.nodes|
    ensures forall k :: 0 <= k < |d.nodes| ==> heights[k] == Height(d, k)
  {
    seq(|d.nodes|, k requires 0 <= k < |d.nodes| => Height(d, k))
  }

  function MaxOf(heights: seq<int>): int
    requires |heights| > 0
  {
    var n := |heights|;
    if n == 1 then heights[0] else Max(MaxOf(heights[..n - 1]), heights[n - 1])
  }

  /** The rows needed for `n` cards. */
  function RowCount(n: nat): nat {
    (n + 2) / 3
  }

  function RowEnd(n: nat, row: nat): nat {
    if row * 3 + 3 <= n then row * 3 + 3 else n
  }

  /** The first card of a row, or the end when there is no such row. */
  function RowStart(n: nat, row: nat): nat {
    if row * 3 < n then row * 3 else n
  }

  function RowHeight(heights: seq<int>, row: nat): int
    requires row < RowCount(|heights|)
  {
    MaxOf(heights[row * 3..RowEnd(|heights|, row)])
  }

  function RowTop(heights: seq<int>, row: nat): int
    requires row <= RowCount(|heights|)
  {
    if row == 0 then 180 else RowTop(heights, row - 1) + RowHeight(heights, row - 1) + 144
  }

  function Position(d: Diagram, k: nat): Rect
    requires k < |d.nodes|
  {
    Rect(72 + (k % 3) * 456, RowTop(Heights(d), k / 3), 300, Height(d, k))
  }

  /** Where every node's card goes, in node order. */
  function Cards(d: Diagram): (cards: seq<Rect>)
    ensures |cards| == |d.nodes|
    ensures forall k :: 0 <= k < |d.nodes| ==> cards[k] == Position(d, k)
  {
    seq(|d.nodes|, k requires 0 <= k < |d.nodes| => Position(d, k))
  }

  type Positions = map<string, Rect>

  /** `k` is the last of the first `n` nodes called `id`. */
  ghost predicate LastCalled(nodes: seq<Node>, n: nat, id: string, k: nat)
    requires n <= |nodes|
  {
    k < n && nodes[k].id == id && forall j :: k < j < n ==> nodes[j].id != id
  }

  /** Each id is placed where its last occurrence among the first `n` nodes puts it. */
  ghost predicate Placed(nodes: seq<Node>, cards: seq<Rect>, n: nat, positions: Positions)
    requires n <= |nodes| == |cards|
  {
    && (forall k :: 0 <= k < n ==> nodes[k].id in positions)
    && forall id :: id in positions ==>
         exists k: nat :: LastCalled(nodes, n, id, k) && positions[id] == cards[k]
  }

  /** The dictionary after placing the first `n` nodes one after the other. */
  function PlacedFirst(nodes: seq<Node>, cards: seq<Rect>, n: nat): Positions
    requires n <= |nodes| == |cards|
  {
    if n == 0 then map[] else PlacedFirst(nodes, cards, n - 1)[nodes[n - 1].id := cards[n - 1]]
  }

  lemma {:induction false} PlacedFirstIsPlaced(nodes: seq<Node>, cards: seq<Rect>, n: nat, positions: Positions)
    requires n <= |nodes| == |cards| && positions == PlacedFirst(nodes, cards, n)
    ensures Placed(nodes, cards, n, positions)
  {
    if n > 0 {
      var before := PlacedFirst(nodes, cards, n - 1);
      PlacedFirstIsPlaced(nodes, cards, n - 1, before);
      NextPlaced(nodes, cards, n - 1, before, positions);
    }
  }

  lemma {:induction false} NextPlaced(nodes: seq<Node>, cards: seq<Rect>, n: nat, before: Positions,
                                      positions: Positions)
    requires n < |nodes| == |cards| && Placed(nodes, cards, n, before)
    requires positions == before[nodes[n].id := cards[n]]
    ensures Placed(nodes, cards, n + 1, positions)
  {
  }

  /** The cards of one row, given where the row starts. */
  ghost predicate RowOfCards(d: Diagram, cards: seq<Rect>, heights: seq<int>, row: nat, y: int)
    requires |cards| == |heights| == |d.nodes|
  {
    forall k :: row * 3 <= k < RowEnd(|d.nodes|, row) ==>
      cards[k] == Rect(72 + (k - row * 3) * 456, y, 300, heights[k]) && heights[k] == Height(d, k)
  }

  lemma {:induction false} CardsByRow(d: Diagram, row: nat)
    requires row < RowCount(|d.nodes|)
    ensures RowOfCards(d, Cards(d), Heights(d), row, RowTop(Heights(d), row))
  {
    forall k | row * 3 <= k < RowEnd(|d.nodes|, row)
      ensures Cards(d)[k] == Rect(72 + (k - row * 3) * 456, RowTop(Heights(d), row), 300, Heights(d)[k])
    {
      assert k / 3 == row && k % 3 == k - row * 3;
    }
  }

  /** The inner loop: one row of up to three cards, and their heights. */
  method PlaceRow(d: Diagram, row: nat, y: int, positions0: Positions, ghost cards: seq<Rect>, ghost all: seq<int>)
    returns (positions: Positions, heights: seq<int>)
    requires row < RowCount(|d.nodes|) && |cards| == |all| == |d.nodes|
    requires RowOfCards(d, cards, all, row, y)
    requires positions0 == PlacedFirst(d.nodes, cards, row * 3)
    ensures positions == PlacedFirst(d.nodes, cards, RowEnd(|d.nodes|, row))
    ensures heights == all[row * 3..RowEnd(|d.nodes|, row)]
  {
    positions := positions0;
    heights := [];
    for k := row * 3 to RowEnd(|d.nodes|, row)
      invariant positions == PlacedFirst(d.nodes, cards, k)
      invariant heights == all[row * 3..k]
    {
      var height := Height(d, k);
      assert cards[k] == Rect(72 + (k - row * 3) * 456, y, 300, height);
      positions := positions[d.nodes[k].id := Rect(72 + (k - row * 3) * 456, y, 300, height)];
      heights := heights + [height];
    }
  }

  lemma {:induction false} NextRowTop(heights: seq<int>, row: nat)
    requires row < RowCount(|heights|)
    ensures RowTop(heights, row + 1)
            == RowTop(heights, row) + MaxOf(heights[row * 3..RowEnd(|heights|, row)]) + 144
  {
  }

  lemma {:induction false} NextRowStart(n: nat, row: nat)
    requires row < RowCount(n)
    ensures RowStart(n, row) == row * 3 && RowStart(n, row + 1) == RowEnd(n, row)
  {
  }

  /** The outer loop, against any cards that are arranged in rows of these heights. */
  method PlaceRows(d: Diagram, ghost cards: seq<Rect>, ghost all: seq<int>) returns (positions: Positions, bottom: int)
    requires |cards| == |all| == |d.nodes|
    requires forall row: nat :: row < RowCount(|all|) ==> RowOfCards(d, cards, all, row, RowTop(all, row))
    ensures positions == PlacedFirst(d.nodes, cards, |d.nodes|)
    ensures bottom == RowTop(all, RowCount(|all|))
  {
    positions := map[];
    bottom := 180;
    for row := 0 to RowCount(|d.nodes|)
      invariant bottom == RowTop(all, row)
      invariant positions == PlacedFirst(d.nodes, cards, RowStart(|d.nodes|, row))
    {
      var heights;
      NextRowTop(all, row);
      NextRowStart(|d.nodes|, row);
      positions, heights := PlaceRow(d, row, bottom, positions, cards, all);
      bottom := bottom + MaxOf(heights) + 144;
    }
  }

  method PlaceNodes(d: Diagram) returns (positions: Positions, bottom: int)
    ensures Placed(d.nodes, Cards(d), |d.nodes|, positions)
    ensures bottom == RowTop(Heights(d), RowCount(|d.nodes|))
  {
    forall row: nat | row < RowCount(|d.nodes|) {
      CardsByRow(d, row);
    }
    positions, bottom := PlaceRows(d, Cards(d), Heights(d));
    PlacedFirstIsPlaced(d.nodes, Cards(d), |d.nodes|, positions);
  }

  // ----- the shape every card has -----

  /** What routing needs to know of a card: its column, its cell alignment, room for `ports` ports
      on its sides, and 144 pixels above the bottom of the drawing. */
  ghost predicate IsCard(r: Rect, ports: nat, bottom: int) {
    && (r.x == 72 || r.x == 528 || r.x == 984)
    && r.width == 300
    && r.y % 12 == 0 && r.height % 12 == 0
    && 180 <= r.y && r.y + r.height + 144 <= bottom
    && r.height >= 108 && r.height >= 36 + 12 * ports
  }

  ghost predicate CardsAligned(d: Diagram, positions: Positions, bottom: int) {
    && bottom % 12 == 0 && bottom >= 180
    && forall id :: id in positions ==> IsCard(positions[id], Degree(d.edges, id), bottom)
  }

  lemma {:induction false} HeightFacts(d: Diagram, k: nat)
    requires k < |d.nodes|
    ensures Height(d, k) % 12 == 0 && Height(d, k) >= 108
    ensures Height(d, k) >= 36 + 12 * Degree(d.edges, d.nodes[k].id)
  {
  }

  /** What card `k` must have room for: the minimum, its label, its ports, and a decision's diamond. */
  ghost predicate MakesRoom(d: Diagram, k: nat, height: int)
    requires k < |d.nodes|
  {
    && height >= 108
    && height >= 48 + 23 * d.nodes[k].lines
    && height >= 36 + 12 * Degree(d.edges, d.nodes[k].id)
    && (d.nodes[k].question && d.flowchart ==> height >= 180)
  }

  /** A card is as low as whole cells allow. */
  lemma {:induction false} HeightIsLeast(d: Diagram, k: nat, height: int)
    requires k < |d.nodes| && height % 12 == 0
    ensures MakesRoom(d, k, height) <==> Height(d, k) <= height
  {
    var demand := Max(Max(Max(108, 48 + d.nodes[k].lines * 23), 36 + Degree(d.edges, d.nodes[k].id) * 12),
                      if IsDecision(d, k) then 180 else 0);
    assert MakesRoom(d, k, height) <==> demand <= height;
    assert Height(d, k) == ((demand + 11) / 12) * 12;
    RoundedUp(demand, height);
  }

  lemma {:induction false} RoundedUp(demand: int, height: int)
    requires height % 12 == 0
    ensures demand <= height <==> ((demand + 11) / 12) * 12 <= height
  {
  }

  ghost predicate Aligned(heights: seq<int>) {
    forall k :: 0 <= k < |heights| ==> heights[k] % 12 == 0 && heights[k] >= 108
  }

  lemma {:induction false} HeightsAligned(d: Diagram)
    ensures Aligned(Heights(d))
  {
    forall k | 0 <= k < |d.nodes| {
      HeightFacts(d, k);
    }
  }

  lemma {:induction false} MaxOfBounds(heights: seq<int>, k: nat)
    requires k < |heights| && Aligned(heights)
    ensures heights[k] <= MaxOf(heights)
    ensures MaxOf(heights) % 12 == 0
  {
    var n := |heights|;
    if n > 1 {
      MaxOfBounds(heights[..n - 1], if k < n - 1 then k else 0);
    }
  }

  /** A row is as tall as any of its cards, and a whole number of cells tall. */
  lemma {:induction false} RowBounds(heights: seq<int>, row: nat, k: nat)
    requires Aligned(heights) && row < RowCount(|heights|) && row * 3 <= k < RowEnd(|heights|, row)
    ensures heights[k] <= RowHeight(heights, row) && RowHeight(heights, row) % 12 == 0
  {
    MaxOfBounds(heights[row * 3..RowEnd(|heights|, row)], k - row * 3);
  }

  lemma {:induction false} RowTopAligned(heights: seq<int>, row: nat)
    requires Aligned(heights) && row <= RowCount(|heights|)
    ensures RowTop(heights, row) % 12 == 0 && RowTop(heights, row) >= 180
  {
    if row > 0 {
      RowTopAligned(heights, row - 1);
      RowBounds(heights, row - 1, (row - 1) * 3);
    }
  }

  /** A card ends 144 pixels before any later row begins. */
  lemma {:induction false} RowGap(heights: seq<int>, k: nat, row: nat)
    requires Aligned(heights) && k < |heights| && k / 3 < row <= RowCount(|heights|)
    ensures RowTop(heights, k / 3) + heights[k] + 144 <= RowTop(heights, row)
    decreases row
  {
    RowBounds(heights, row - 1, if k / 3 == row - 1 then k else (row - 1) * 3);
    if k / 3 < row - 1 {
      RowGap(heights, k, row - 1);
    }
  }

  /** Two cards are never closer than 144 pixels vertically or 156 horizontally. */
  lemma {:induction false} CardsApart(d: Diagram, j: nat, k: nat)
    requires j < k < |d.nodes|
    ensures var a, b := Position(d, j), Position(d, k);
            || a.y + a.height + 144 <= b.y
            || a.x + a.width + 156 <= b.x
  {
    if j / 3 < k / 3 {
      HeightsAligned(d);
      RowGap(Heights(d), j, k / 3);
    }
  }

  lemma {:induction false} CardAt(d: Diagram, k: nat)
    requires k < |d.nodes|
    ensures IsCard(Position(d, k), Degree(d.edges, d.nodes[k].id), RowTop(Heights(d), RowCount(|d.nodes|)))
  {
    HeightFacts(d, k);
    CardRow(d, k);
  }

  lemma {:induction false} CardRow(d: Diagram, k: nat)
    requires k < |d.nodes|
    ensures RowTop(Heights(d), k / 3) % 12 == 0 && RowTop(Heights(d), k / 3) >= 180
    ensures RowTop(Heights(d), k / 3) + Height(d, k) + 144 <= RowTop(Heights(d), RowCount(|d.nodes|))
  {
    HeightsAligned(d);
    RowTopAligned(Heights(d), k / 3);
    RowGap(Heights(d), k, RowCount(|d.nodes|));
  }

  lemma {:induction false} PlacedCards(d: Diagram, positions: Positions, bottom: int)
    requires Placed(d.nodes, Cards(d), |d.nodes|, positions) && bottom == RowTop(Heights(d), RowCount(|d.nodes|))
    ensures CardsAligned(d, positions, bottom)
  {
    HeightsAligned(d);
    RowTopAligned(Heights(d), RowCount(|d.nodes|));
    forall id | id in positions
      ensures IsCard(positions[id], Degree(d.edges, id), bottom)
    {
      var k: nat :| LastCalled(d.nodes, |d.nodes|, id, k) && positions[id] == Position(d, k);
      CardAt(d, k);
    }
  }

  // ----- rows, without their tops -----

  lemma {:induction false} MaxOfIsOne(heights: seq<int>) returns (k: nat)
    requires |heights| > 0
    ensures k < |heights| && MaxOf(heights) == heights[k]
  {
    var n := |heights|;
    if n == 1 || MaxOf(heights) == heights[n - 1] {
      k := n - 1;
    } else {
      k := MaxOfIsOne(heights[..n - 1]);
    }
  }

  /** The next row starts 144 below a card of this one. */
  lemma {:induction false} RowTopIsTight(heights: seq<int>, row: nat) returns (k: nat)
    requires row < RowCount(|heights|)
    ensures row * 3 <= k < RowEnd(|heights|, row)
    ensures RowTop(heights, row + 1) == RowTop(heights, row) + heights[k] + 144
  {
    var j := MaxOfIsOne(heights[row * 3..RowEnd(|heights|, row)]);
    k := row * 3 + j;
  }

  /** Card `k` stands in row `row`: the first three cards in row 0, the next three in row 1, and so on. */
  ghost predicate InRow(cards: seq<Rect>, k: int, row: nat) {
    0 <= k < |cards| && row * 3 <= k < row * 3 + 3
  }

  /** `y` is where the row after `row` belongs: exactly 144 below some card of `row`, and that far below
      all of them at least. */
  ghost predicate FollowsRow(cards: seq<Rect>, row: nat, y: int) {
    && (exists j :: InRow(cards, j, row) && cards[j].y + cards[j].height + 144 == y)
    && (forall j :: InRow(cards, j, row) ==> cards[j].y + cards[j].height + 144 <= y)
  }

  /** Cards of these heights, each at the top of its row. */
  ghost predicate Stacked(cards: seq<Rect>, heights: seq<int>) {
    && |cards| == |heights| && Aligned(heights)
    && forall k :: 0 <= k < |cards| ==> cards[k].height == heights[k] && cards[k].y == RowTop(heights, k / 3)
  }

  lemma {:induction false} CardsStacked(d: Diagram)
    ensures Stacked(Cards(d), Heights(d))
  {
    HeightsAligned(d);
  }

  lemma {:induction false} RowTopFollows(cards: seq<Rect>, heights: seq<int>, row: nat)
    requires Stacked(cards, heights) && row < RowCount(|cards|)
    ensures FollowsRow(cards, row, RowTop(heights, row + 1))
  {
    var y := RowTop(heights, row + 1);
    var k := RowTopIsTight(heights, row);
    CardInRow(cards, heights, row, k);
    forall j | InRow(cards, j, row)
      ensures cards[j].y + cards[j].height + 144 <= y
    {
      CardInRow(cards, heights, row, j);
    }
  }

  lemma {:induction false} CardInRow(cards: seq<Rect>, heights: seq<int>, row: nat, k: nat)
    requires Stacked(cards, heights) && InRow(cards, k, row) && row < RowCount(|cards|)
    ensures cards[k].y == RowTop(heights, row) && cards[k].height == heights[k]
    ensures RowTop(heights, row) + heights[k] + 144 <= RowTop(heights, row + 1)
  {
    assert k / 3 == row;
    RowGap(heights, k, row + 1);
  }

  /** Cards stand three to a row, 456 apart from 72 on; the first row starts at 180 and each other row
      just where the one above lets it. */
  lemma {:induction false} WhereCardsStand(d: Diagram, k: nat, row: nat)
    requires InRow(Cards(d), k, row)
    ensures Cards(d)[k].x == 72 + 456 * (k - 3 * row) && Cards(d)[k].width == 300
    ensures row == 0 ==> Cards(d)[k].y == 180
    ensures row > 0 ==> FollowsRow(Cards(d), row - 1, Cards(d)[k].y)
  {
    assert k / 3 == row && k % 3 == k - 3 * row;
    CardsStacked(d);
    if row > 0 {
      RowTopFollows(Cards(d), Heights(d), row - 1);
    }
  }

  /** The drawing ends just where a row after the last would start. */
  lemma {:induction false} WhereRowsEnd(d: Diagram, row: nat, bottom: int)
    requires row + 1 == RowCount(|d.nodes|) && bottom == RowTop(Heights(d), RowCount(|d.nodes|))
    ensures FollowsRow(Cards(d), row, bottom)
  {
    CardsStacked(d);
    LastRowFollows(Cards(d), Heights(d), row, bottom);
  }

  lemma {:induction false} LastRowFollows(cards: seq<Rect>, heights: seq<int>, row: nat, bottom: int)
    requires Stacked(cards, heights) && row + 1 == RowCount(|cards|) && bottom == RowTop(heights, RowCount(|cards|))
    ensures FollowsRow(cards, row, bottom)
  {
    RowTopFollows(cards, heights, row);
  }

  // ----- clearance -----

  ghost predicate InClearance(r: Rect, c: Cell) {
    && (r.x - 8) / 12 <= c.x < (r.x + r.width + 8) / 12 + 1
    && (r.y - 8) / 12 <= c.y < (r.y + r.height + 8) / 12 + 1
  }

  function ClearanceCells(r: Rect): (cells: set<Cell>)
    ensures forall c :: c in cells <==> InClearance(r, c)
  {
    var cells := set x, y | (r.x - 8) / 12 <= x < (r.x + r.width + 8) / 12 + 1
                            && (r.y - 8) / 12 <= y < (r.y + r.height + 8) / 12 + 1 :: Cell(x, y);
    assert forall c :: InClearance(r, c) ==> c == Cell(c.x, c.y);
    cells
  }

  /** The blocked cells are exactly the clearance of the placed cards. */
  method Block(positions: Positions) returns (blocked: set<Cell>)
    ensures forall c :: c in blocked <==> exists id :: id in positions && InClearance(positions[id], c)
  {
    blocked := {};
    var todo := positions.Keys;
    while todo != {}
      invariant todo <= positions.Keys
      invariant forall c :: c in blocked <==>
                  exists id :: id in positions && id !in todo && InClearance(positions[id], c)
      decreases todo
    {
      var id :| id in todo;
      ghost var before := blocked;
      ghost var pending := todo;
      blocked := blocked + ClearanceCells(positions[id]);
      todo := todo - {id};
      forall c
        ensures c in blocked <==> exists i :: i in positions && i !in todo && InClearance(positions[i], c)
      {
        if c in before {
          var i :| i in positions && i !in pending && InClearance(positions[i], c);
          assert i !in todo;
        } else if InClearance(positions[id], c) {
          assert id in positions && id !in todo && InClearance(positions[id], c);
        }
      }
    }
  }

  ghost predicate IsGridFor(g: Grid, positions: Positions, bottom: int) {
    && g.columns == 124
    && g.rows == (bottom + 72) / 12
    && forall c :: c in g.blocked <==> exists id :: id in positions && InClearance(positions[id], c)
  }

  /** The card's own pixels and one cell around its left and top. */
  ghost predicate Near(r: Rect, c: Cell) {
    r.x - 12 <= 12 * c.x <= r.x + r.width && r.y - 12 <= 12 * c.y <= r.y + r.height
  }

  /** In pixels: a cell may be searched exactly when it lies between 12 and 1488 across, from 132 down to
      72 below the last row, and near no placed card. */
  lemma {:induction false} FreeInPixels(d: Diagram, positions: Positions, bottom: int, g: Grid, c: Cell)
    requires CardsAligned(d, positions, bottom) && IsGridFor(g, positions, bottom)
    ensures Free(g, c) <==>
              && 12 <= 12 * c.x < 1488 && 132 <= 12 * c.y < bottom + 72
              && forall id :: id in positions ==> !Near(positions[id], c)
  {
    forall id | id in positions
      ensures Near(positions[id], c) <==> InClearance(positions[id], c)
    {
      NearIsClearance(positions[id], Degree(d.edges, id), bottom, c);
    }
  }

  lemma {:induction false} NearIsClearance(r: Rect, ports: nat, bottom: int, c: Cell)
    requires IsCard(r, ports, bottom)
    ensures Near(r, c) <==> InClearance(r, c)
  {
  }
}
