/**
 The layered graph layout (apps/ui/src/graphLayout.ts): size every node, layer the top-level
 ones, lay the layers out as columns of stacked boxes, then put children inside their parent.

 A missing parent is the empty string, as the source treats both as "no parent".
 */
module GraphLayout {
  import opened Sequences
  import opened Layering

  datatype EdgeKind = Normal | Condition | LoopBack | Retry | Error | Fanout | Merge | Approval

  datatype Node = Node(id: Id, parent: Id)

  datatype ProjectionEdge = ProjectionEdge(source: Id, target: Id, kind: EdgeKind)

  datatype Size = Size(width: nat, height: nat)

  datatype Rect = Rect(x: nat, y: nat, width: nat, height: nat)

  type Rows = map<nat, seq<Id>>

  const NODE_WIDTH := 168
  const NODE_HEIGHT := 112
  const CHILD_GAP := 16
  const GROUP_PADDING_X := 20
  const GROUP_PADDING_TOP := 64
  const GROUP_PADDING_BOTTOM := 20
  const COLUMN_GAP := 64
  const ROW_GAP := 44

  predicate IsReturnEdge(kind: EdgeKind) {
    kind == LoopBack || kind == Retry || kind == Error
  }

  // ---------------------------------------------------------------- what the inputs mean

  ghost predicate UniqueIds(nodes: seq<Node>) {
    forall i, j :: 0 <= i < j < |nodes| ==> nodes[i].id != nodes[j].id
  }

  ghost function TopLevel(nodes: seq<Node>): seq<Id> {
    if nodes == [] then []
    else
      var last := nodes[|nodes| - 1];
      TopLevel(nodes[..|nodes| - 1]) + if last.parent == "" then [last.id] else []
  }

  ghost function ChildrenOf(nodes: seq<Node>, parent: Id): seq<Id> {
    if nodes == [] || parent == "" then []
    else
      var last := nodes[|nodes| - 1];
      ChildrenOf(nodes[..|nodes| - 1], parent) + if last.parent == parent then [last.id] else []
  }

  /** The node an edge endpoint collapses onto. */
  ghost function Resolve(nodes: seq<Node>, id: Id): Id {
    if nodes == [] then id
    else
      var last := nodes[|nodes| - 1];
      if last.id == id && last.parent != "" then last.parent else Resolve(nodes[..|nodes| - 1], id)
  }

  /** Forward edges between distinct top-level nodes, in edge order. */
  ghost function Forward(nodes: seq<Node>, edges: seq<ProjectionEdge>): seq<Edge> {
    if edges == [] then []
    else
      var last := edges[|edges| - 1];
      Forward(nodes, edges[..|edges| - 1]) +
      if IsForward(nodes, last) then [Edge(Resolve(nodes, last.source), Resolve(nodes, last.target))] else []
  }

  ghost predicate IsForward(nodes: seq<Node>, edge: ProjectionEdge) {
    && edge.kind !in {LoopBack, Retry, Error}
    && Resolve(nodes, edge.source) != Resolve(nodes, edge.target)
    && Resolve(nodes, edge.source) in TopLevel(nodes)
    && Resolve(nodes, edge.target) in TopLevel(nodes)
  }

  /** A group grows to hold `count` children in one padded row. */
  function SizeFor(count: nat): (size: Size)
    ensures count > 0 ==> size.width == 2 * GROUP_PADDING_X + count * NODE_WIDTH + (count - 1) * CHILD_GAP
    ensures NODE_WIDTH <= size.width && NODE_HEIGHT <= size.height
  {
    if count > 0 then
      Size(GROUP_PADDING_X * 2 + count * NODE_WIDTH + (count - 1) * CHILD_GAP,
           GROUP_PADDING_TOP + NODE_HEIGHT + GROUP_PADDING_BOTTOM)
    else
      Size(NODE_WIDTH, NODE_HEIGHT)
  }

  predicate Measures(rect: Rect, size: Size) {
    rect.width == size.width && rect.height == size.height
  }

  /** What a box must measure: a plain node, or a group around its children. */
  ghost function SizeOf(nodes: seq<Node>, id: Id): Size {
    var count := |ChildrenOf(nodes, id)|;
    if count == 0 then Size(168, 112) else Size(24 + 184 * count, 196)
  }

  // ---------------------------------------------------------------- where boxes go

  /** A column is as wide as its widest box, and never narrower than a plain node. */
  ghost function WidestBox(nodes: seq<Node>, row: seq<Id>): nat {
    if row == [] then 168
    else
      var rest, last := WidestBox(nodes, row[..|row| - 1]), SizeOf(nodes, row[|row| - 1]).width;
      if rest < last then last else rest
  }

  /** The first column is at 0, each next one 64 beyond the widest box of the one before. */
  ghost function ColumnX(nodes: seq<Node>, layers: Layers, layer: nat): nat
    requires forall id :: id in TopLevel(nodes) ==> id in layers
  {
    if layer == 0 then 0
    else ColumnX(nodes, layers, layer - 1) + WidestBox(nodes, Row(TopLevel(nodes), layers, layer - 1)) + 64
  }

  /** The first box of a column is at 0, each next one 44 below the one before. */
  ghost function RowTop(nodes: seq<Node>, row: seq<Id>, i: nat): nat
    requires i <= |row|
  {
    if i == 0 then 0 else RowTop(nodes, row, i - 1) + SizeOf(nodes, row[i - 1]).height + 44
  }

  /** The columns are the layers, the boxes of a column in node order. */
  ghost predicate Drawn(nodes: seq<Node>, layers: Layers, layout: map<Id, Rect>) {
    && (forall id :: id in TopLevel(nodes) ==> id in layers)
    && forall layer: nat, i: nat :: i < |Row(TopLevel(nodes), layers, layer)| ==>
                                      BoxDrawn(nodes, layers, layout, layer, i)
  }

  ghost predicate BoxDrawn(nodes: seq<Node>, layers: Layers, layout: map<Id, Rect>, layer: nat, i: nat)
    requires forall id :: id in TopLevel(nodes) ==> id in layers
    requires i < |Row(TopLevel(nodes), layers, layer)|
  {
    var row := Row(TopLevel(nodes), layers, layer);
    && row[i] in layout
    && layout[row[i]] == Rect(ColumnX(nodes, layers, layer), RowTop(nodes, row, i),
                              SizeOf(nodes, row[i]).width, SizeOf(nodes, row[i]).height)
  }

  // ---------------------------------------------------------------- what the layout promises

  /** Apart by at least the column gap sideways or the row gap vertically. */
  ghost predicate Separated(r: Rect, s: Rect) {
    || r.x + r.width + COLUMN_GAP <= s.x
    || s.x + s.width + COLUMN_GAP <= r.x
    || r.y + r.height + ROW_GAP <= s.y
    || s.y + s.height + ROW_GAP <= r.y
  }

  /** Child coordinates are relative to the parent. */
  ghost predicate InsidePadding(child: Rect, parent: Rect) {
    && GROUP_PADDING_X <= child.x
    && child.x + child.width + GROUP_PADDING_X <= parent.width
    && GROUP_PADDING_TOP <= child.y
    && child.y + child.height + GROUP_PADDING_BOTTOM <= parent.height
  }

  ghost predicate TopLevelSeparated(nodes: seq<Node>, layout: map<Id, Rect>) {
    forall a, b :: a in TopLevel(nodes) && b in TopLevel(nodes) && a != b ==>
                     a in layout && b in layout && Separated(layout[a], layout[b])
  }

  /** Children in template order, side by side, a child gap apart. */
  ghost predicate ChildrenInRow(nodes: seq<Node>, parent: Id, layout: map<Id, Rect>) {
    var children := ChildrenOf(nodes, parent);
    && (forall i :: 0 <= i < |children| ==> children[i] in layout)
    && (forall i, j :: 0 <= i < j < |children| ==>
                         layout[children[i]].x + layout[children[i]].width + CHILD_GAP <= layout[children[j]].x)
  }

  /** The children of a node in node order, 184 apart, in a row 64 below its top and 20 from its left. */
  ghost predicate ChildrenDrawn(nodes: seq<Node>, parent: Id, layout: map<Id, Rect>) {
    var children := ChildrenOf(nodes, parent);
    forall i :: 0 <= i < |children| ==> children[i] in layout && layout[children[i]] == Rect(20 + 184 * i, 64, 168, 112)
  }

  ghost predicate ChildrenInside(nodes: seq<Node>, parent: Id, layout: map<Id, Rect>) {
    parent in layout &&
    forall child :: child in ChildrenOf(nodes, parent) ==>
                      child in layout && InsidePadding(layout[child], layout[parent])
  }

  // ---------------------------------------------------------------- facts about the filters

  lemma {:induction false} TopLevelFacts(nodes: seq<Node>)
    ensures forall id :: id in TopLevel(nodes) <==> exists i :: 0 <= i < |nodes| && nodes[i] == Node(id, "")
    ensures UniqueIds(nodes) ==> NoDuplicates(TopLevel(nodes))
  {
    if nodes != [] {
      var rest, last := nodes[..|nodes| - 1], nodes[|nodes| - 1];
      TopLevelFacts(rest);
      forall id
        ensures id in TopLevel(nodes) <==> exists i :: 0 <= i < |nodes| && nodes[i] == Node(id, "")
      {
        if id in TopLevel(rest) {
          var i :| 0 <= i < |rest| && rest[i] == Node(id, "");
          assert nodes[i] == Node(id, "");
        }
        if i :| 0 <= i < |nodes| && nodes[i] == Node(id, "") {
          if i < |rest| { assert rest[i] == Node(id, ""); }
        }
      }
      if UniqueIds(nodes) {
        assert UniqueIds(rest) by { assert forall i :: 0 <= i < |rest| ==> rest[i] == nodes[i]; }
        forall id | id in TopLevel(rest) ensures id != last.id {
          var i :| 0 <= i < |rest| && rest[i] == Node(id, "");
          assert nodes[i].id == id;
        }
      }
    }
  }

  lemma {:induction false} ChildrenFacts(nodes: seq<Node>, parent: Id)
    ensures forall id :: id in ChildrenOf(nodes, parent) <==>
                         parent != "" && exists i :: 0 <= i < |nodes| && nodes[i] == Node(id, parent)
    ensures UniqueIds(nodes) ==> NoDuplicates(ChildrenOf(nodes, parent))
  {
    if nodes != [] && parent != "" {
      var rest, last := nodes[..|nodes| - 1], nodes[|nodes| - 1];
      ChildrenFacts(rest, parent);
      forall id
        ensures id in ChildrenOf(nodes, parent) <==> exists i :: 0 <= i < |nodes| && nodes[i] == Node(id, parent)
      {
        if id in ChildrenOf(rest, parent) {
          var i :| 0 <= i < |rest| && rest[i] == Node(id, parent);
          assert nodes[i] == Node(id, parent);
        }
        if i :| 0 <= i < |nodes| && nodes[i] == Node(id, parent) {
          if i < |rest| { assert rest[i] == Node(id, parent); }
        }
      }
      if UniqueIds(nodes) {
        assert UniqueIds(rest) by { assert forall i :: 0 <= i < |rest| ==> rest[i] == nodes[i]; }
        forall id | id in ChildrenOf(rest, parent) ensures id != last.id {
          var i :| 0 <= i < |rest| && rest[i] == Node(id, parent);
          assert nodes[i].id == id;
        }
      }
    }
  }

  lemma {:induction false} ForwardEndpoints(nodes: seq<Node>, edges: seq<ProjectionEdge>, ids: set<Id>)
    requires ids == set v | v in TopLevel(nodes)
    ensures EndpointsIn(Forward(nodes, edges), ids)
  {
    if edges != [] { ForwardEndpoints(nodes, edges[..|edges| - 1], ids); }
  }

  // ---------------------------------------------------------------- indexing and measuring

  ghost predicate ParentsIndexed(nodes: seq<Node>, parentOf: map<Id, Id>) {
    forall id :: Resolve(nodes, id) == if id in parentOf then parentOf[id] else id
  }

  ghost predicate ChildrenIndexed(nodes: seq<Node>, childrenOf: map<Id, seq<Id>>) {
    forall p :: ChildrenOf(nodes, p) == if p in childrenOf then childrenOf[p] else []
  }

  lemma IndexStep(nodes: seq<Node>, node: Node, parentOf: map<Id, Id>, childrenOf: map<Id, seq<Id>>)
    requires ParentsIndexed(nodes, parentOf) && ChildrenIndexed(nodes, childrenOf)
    ensures ParentsIndexed(nodes + [node], if node.parent == "" then parentOf else parentOf[node.id := node.parent])
    ensures ChildrenIndexed(nodes + [node],
                            if node.parent == "" then childrenOf
                            else childrenOf[node.parent := ChildrenOf(nodes, node.parent) + [node.id]])
  {
    assert (nodes + [node])[..|nodes|] == nodes;
  }

  method IndexParents(nodes: seq<Node>) returns (parentOf: map<Id, Id>, childrenOf: map<Id, seq<Id>>)
    ensures ParentsIndexed(nodes, parentOf) && ChildrenIndexed(nodes, childrenOf)
  {
    parentOf, childrenOf := map[], map[];
    for i := 0 to |nodes|
      invariant ParentsIndexed(nodes[..i], parentOf) && ChildrenIndexed(nodes[..i], childrenOf)
    {
      var node := nodes[i];
      IndexStep(nodes[..i], node, parentOf, childrenOf);
      assert nodes[..i + 1] == nodes[..i] + [node];
      if node.parent != "" {
        var children := if node.parent in childrenOf then childrenOf[node.parent] else [];
        assert children == ChildrenOf(nodes[..i], node.parent);
        parentOf := parentOf[node.id := node.parent];
        childrenOf := childrenOf[node.parent := children + [node.id]];
      }
    }
    assert nodes[..|nodes|] == nodes;
  }

  method MeasureNodes(nodes: seq<Node>, childrenOf: map<Id, seq<Id>>) returns (sizes: map<Id, Size>)
    requires ChildrenIndexed(nodes, childrenOf)
    ensures forall i :: 0 <= i < |nodes| ==> nodes[i].id in sizes
    ensures forall id :: id in sizes ==> sizes[id] == SizeOf(nodes, id)
  {
    sizes := map[];
    for i := 0 to |nodes|
      invariant forall k :: 0 <= k < i ==> nodes[k].id in sizes
      invariant forall id :: id in sizes ==> sizes[id] == SizeOf(nodes, id)
    {
      var id := nodes[i].id;
      var children := if id in childrenOf then childrenOf[id] else [];
      sizes := sizes[id := SizeFor(|children|)];
    }
  }

  method ForwardEdges(nodes: seq<Node>, edges: seq<ProjectionEdge>, parentOf: map<Id, Id>)
    returns (topLevel: seq<Id>, forward: seq<Edge>)
    requires ParentsIndexed(nodes, parentOf)
    ensures topLevel == TopLevel(nodes) && forward == Forward(nodes, edges)
  {
    topLevel := [];
    for i := 0 to |nodes|
      invariant topLevel == TopLevel(nodes[..i])
    {
      assert nodes[..i + 1][..i] == nodes[..i];
      if nodes[i].parent == "" { topLevel := topLevel + [nodes[i].id]; }
    }
    assert nodes[..|nodes|] == nodes;
    forward := [];
    for i := 0 to |edges|
      invariant forward == Forward(nodes, edges[..i])
    {
      assert edges[..i + 1][..i] == edges[..i];
      var edge := edges[i];
      if !IsReturnEdge(edge.kind) {
        var source := if edge.source in parentOf then parentOf[edge.source] else edge.source;
        var target := if edge.target in parentOf then parentOf[edge.target] else edge.target;
        if source != target && source in topLevel && target in topLevel {
          forward := forward + [Edge(source, target)];
        }
      }
    }
    assert edges[..|edges|] == edges;
  }

  // ---------------------------------------------------------------- columns

  ghost function Row(topLevel: seq<Id>, layers: Layers, layer: nat): seq<Id>
    requires forall i :: 0 <= i < |topLevel| ==> topLevel[i] in layers
  {
    if topLevel == [] then []
    else
      var last := topLevel[|topLevel| - 1];
      Row(topLevel[..|topLevel| - 1], layers, layer) + if layers[last] == layer then [last] else []
  }

  lemma {:induction false} RowFacts(topLevel: seq<Id>, layers: Layers, layer: nat)
    requires forall i :: 0 <= i < |topLevel| ==> topLevel[i] in layers
    ensures forall id :: id in Row(topLevel, layers, layer) <==> id in topLevel && layers[id] == layer
    ensures NoDuplicates(topLevel) ==> NoDuplicates(Row(topLevel, layers, layer))
  {
    if topLevel != [] {
      var rest, last := topLevel[..|topLevel| - 1], topLevel[|topLevel| - 1];
      RowFacts(rest, layers, layer);
      assert topLevel == rest + [last];
    }
  }

  ghost predicate RowsOf(rows: Rows, topLevel: seq<Id>, layers: Layers) {
    && (forall i :: 0 <= i < |topLevel| ==> topLevel[i] in layers)
    && (forall l: nat :: Row(topLevel, layers, l) == if l in rows then rows[l] else [])
    && (forall l :: l in rows ==> rows[l] != [])
  }

  method GroupByLayer(topLevel: seq<Id>, layers: Layers) returns (rows: Rows)
    requires forall i :: 0 <= i < |topLevel| ==> topLevel[i] in layers
    ensures RowsOf(rows, topLevel, layers)
  {
    rows := map[];
    for i := 0 to |topLevel|
      invariant RowsOf(rows, topLevel[..i], layers)
    {
      assert topLevel[..i + 1][..i] == topLevel[..i] && topLevel[..i + 1][i] == topLevel[i];
      var layer := layers[topLevel[i]];
      var row := if layer in rows then rows[layer] else [];
      rows := rows[layer := row + [topLevel[i]]];
    }
    assert topLevel[..|topLevel|] == topLevel;
  }

  method MaxLayer(rows: Rows) returns (most: nat)
    ensures forall l :: l in rows ==> l <= most
  {
    most := 0;
    var left := rows.Keys;
    while left != {}
      invariant left <= rows.Keys
      invariant forall l :: l in rows && l !in left ==> l <= most
    {
      var l :| l in left;
      if l > most { most := l; }
      left := left - {l};
    }
  }

  method WidestOf(row: seq<Id>, sizes: map<Id, Size>) returns (widest: nat)
    requires forall id :: id in row ==> id in sizes
    ensures widest == Widest(row, sizes)
  {
    widest := NODE_WIDTH;
    for i := 0 to |row|
      invariant widest == Widest(row[..i], sizes)
    {
      assert row[..i + 1][..i] == row[..i];
      if sizes[row[i]].width > widest { widest := sizes[row[i]].width; }
    }
    assert row[..|row|] == row;
  }

  ghost function Widest(row: seq<Id>, sizes: map<Id, Size>): nat {
    if row == [] then NODE_WIDTH
    else
      var rest, last := Widest(row[..|row| - 1], sizes), SizeAt(sizes, row[|row| - 1]).width;
      if rest < last then last else rest
  }

  function RowAt(rows: Rows, layer: nat): seq<Id> {
    if layer in rows then rows[layer] else []
  }

  /** Each column starts exactly a gap beyond the widest box of the one before. */
  ghost predicate Offsets(rows: Rows, sizes: map<Id, Size>, xs: seq<nat>) {
    && (xs != [] ==> xs[0] == 0)
    && forall l :: 0 < l < |xs| ==> OffsetAt(rows, sizes, xs, l)
  }

  ghost predicate OffsetAt(rows: Rows, sizes: map<Id, Size>, xs: seq<nat>, l: nat)
    requires 0 < l < |xs|
  {
    xs[l] == xs[l - 1] + Widest(RowAt(rows, l - 1), sizes) + COLUMN_GAP
  }

  /** Every box of column `l` ends a column gap before column `k` starts. */
  ghost predicate ColumnsClear(rows: Rows, sizes: map<Id, Size>, xs: seq<nat>) {
    forall l, k, id :: 0 <= l < k < |xs| && l in rows && id in rows[l] && id in sizes ==>
                         xs[l] + sizes[id].width + COLUMN_GAP <= xs[k]
  }

  lemma OffsetsExtend(rows: Rows, sizes: map<Id, Size>, xs: seq<nat>, x: nat)
    requires Offsets(rows, sizes, xs)
    requires x == if xs == [] then 0 else xs[|xs| - 1] + Widest(RowAt(rows, |xs| - 1), sizes) + COLUMN_GAP
    ensures Offsets(rows, sizes, xs + [x])
  {
    forall l | 0 < l < |xs| + 1 ensures OffsetAt(rows, sizes, xs + [x], l) {
      if l < |xs| { assert OffsetAt(rows, sizes, xs, l); }
    }
  }

  lemma {:induction false} WidestIsWidest(row: seq<Id>, sizes: map<Id, Size>, id: Id)
    requires id in row
    ensures SizeAt(sizes, id).width <= Widest(row, sizes)
  {
    if id != row[|row| - 1] { WidestIsWidest(row[..|row| - 1], sizes, id); }
  }

  lemma {:induction false} OffsetsClear(rows: Rows, sizes: map<Id, Size>, xs: seq<nat>, l: nat, k: nat, id: Id)
    requires Offsets(rows, sizes, xs) && l < k < |xs| && id in RowAt(rows, l)
    ensures xs[l] + SizeAt(sizes, id).width + COLUMN_GAP <= xs[k]
    decreases k
  {
    assert OffsetAt(rows, sizes, xs, k);
    if l < k - 1 {
      OffsetsClear(rows, sizes, xs, l, k - 1, id);
    } else {
      WidestIsWidest(RowAt(rows, l), sizes, id);
    }
  }

  method ColumnOffsets(rows: Rows, sizes: map<Id, Size>, maxLayer: nat) returns (xs: seq<nat>)
    requires forall l, id :: l in rows && id in rows[l] ==> id in sizes
    ensures |xs| == maxLayer + 1 && ColumnsClear(rows, sizes, xs) && Offsets(rows, sizes, xs)
  {
    xs := [];
    var x: nat := 0;
    for layer := 0 to maxLayer + 1
      invariant |xs| == layer && Offsets(rows, sizes, xs)
      invariant x == if layer == 0 then 0 else xs[layer - 1] + Widest(RowAt(rows, layer - 1), sizes) + COLUMN_GAP
    {
      var row := RowAt(rows, layer);
      var widest := WidestOf(row, sizes);
      OffsetsExtend(rows, sizes, xs, x);
      xs := xs + [x];
      x := x + widest + COLUMN_GAP;
    }
    forall l, k, id | 0 <= l < k < |xs| && l in rows && id in rows[l] && id in sizes
      ensures xs[l] + sizes[id].width + COLUMN_GAP <= xs[k]
    {
      OffsetsClear(rows, sizes, xs, l, k, id);
    }
  }

  ghost function SizeAt(sizes: map<Id, Size>, id: Id): Size {
    if id in sizes then sizes[id] else Size(0, 0)
  }

  /** Height used by the first `i` boxes of a row, gaps included. */
  ghost function RowY(row: seq<Id>, sizes: map<Id, Size>, i: nat): nat
    requires i <= |row|
  {
    if i == 0 then 0 else RowY(row, sizes, i - 1) + SizeAt(sizes, row[i - 1]).height + ROW_GAP
  }

  lemma {:induction false} RowYClear(row: seq<Id>, sizes: map<Id, Size>, i: nat, j: nat)
    requires i < j <= |row|
    ensures RowY(row, sizes, i) + SizeAt(sizes, row[i]).height + ROW_GAP <= RowY(row, sizes, j)
  {
    if i < j - 1 { RowYClear(row, sizes, i, j - 1); }
  }

  /** The box of the `i`-th member of a row whose column starts at `x`. */
  ghost function Slot(row: seq<Id>, sizes: map<Id, Size>, x: nat, i: nat): Rect
    requires i < |row|
  {
    Rect(x, RowY(row, sizes, i), SizeAt(sizes, row[i]).width, SizeAt(sizes, row[i]).height)
  }

  ghost predicate PlacedUpTo(row: seq<Id>, sizes: map<Id, Size>, x: nat, layout: map<Id, Rect>, n: nat)
    requires n <= |row|
  {
    forall i {:trigger At(row, sizes, x, layout, i)} :: 0 <= i < n ==> At(row, sizes, x, layout, i)
  }

  ghost predicate At(row: seq<Id>, sizes: map<Id, Size>, x: nat, layout: map<Id, Rect>, i: nat)
    requires i < |row|
  {
    row[i] in layout && layout[row[i]] == Slot(row, sizes, x, i)
  }

  ghost predicate Placed(row: seq<Id>, sizes: map<Id, Size>, x: nat, layout: map<Id, Rect>) {
    PlacedUpTo(row, sizes, x, layout, |row|)
  }

  ghost predicate RowsDisjoint(rows: Rows) {
    && (forall l, k :: l in rows && k in rows && l != k ==> forall id :: id in rows[l] ==> id !in rows[k])
    && (forall l :: l in rows ==> NoDuplicates(rows[l]))
  }

  /** The inner loop over one row: stack its members. */
  method PlaceRow(row: seq<Id>, sizes: map<Id, Size>, x: nat, before: map<Id, Rect>)
    returns (layout: map<Id, Rect>)
    requires NoDuplicates(row) && forall id :: id in row ==> id in sizes
    ensures Placed(row, sizes, x, layout)
    ensures forall id :: id in layout <==> id in before || id in row
    ensures forall id :: id in before && id !in row ==> layout[id] == before[id]
  {
    layout := before;
    var y: nat := 0;
    for i := 0 to |row|
      invariant y == RowY(row, sizes, i)
      invariant PlacedUpTo(row, sizes, x, layout, i)
      invariant forall id :: id in before ==> id in layout
      invariant forall id :: id in layout ==> id in before || id in row
      invariant forall id :: id in before && id !in row ==> layout[id] == before[id]
    {
      var size := sizes[row[i]];
      ghost var earlier := layout;
      layout := layout[row[i] := Rect(x, y, size.width, size.height)];
      y := y + size.height + ROW_GAP;
      forall k | 0 <= k < i + 1
        ensures At(row, sizes, x, layout, k)
      {
        if k < i { assert row[k] != row[i] && At(row, sizes, x, earlier, k); }
      }
    }
    forall id | id in row
      ensures id in layout
    {
      var k :| 0 <= k < |row| && row[k] == id;
      assert At(row, sizes, x, layout, k);
    }
  }

  method PlaceRows(rows: Rows, sizes: map<Id, Size>, xs: seq<nat>) returns (layout: map<Id, Rect>)
    requires RowsDisjoint(rows) && (forall l, id :: l in rows && id in rows[l] ==> id in sizes)
    requires forall l :: l in rows ==> l < |xs|
    ensures forall l :: l in rows ==> Placed(rows[l], sizes, xs[l], layout)
    ensures forall id :: id in layout ==> exists l :: l in rows && id in rows[l]
  {
    layout := map[];
    var left := rows.Keys;
    while left != {}
      invariant left <= rows.Keys
      invariant forall l :: l in rows && l !in left ==> Placed(rows[l], sizes, xs[l], layout)
      invariant forall id :: id in layout ==> exists l :: l in rows && id in rows[l]
    {
      var l :| l in left;
      ghost var before := layout;
      layout := PlaceRow(rows[l], sizes, xs[l], layout);
      left := left - {l};
      forall k | k in rows && k !in left
        ensures Placed(rows[k], sizes, xs[k], layout)
      {
        if k != l { PlacedKept(rows[k], rows[l], sizes, xs[k], before, layout); }
      }
    }
  }

  lemma PlacedKept(row: seq<Id>, other: seq<Id>, sizes: map<Id, Size>, x: nat,
                   before: map<Id, Rect>, after: map<Id, Rect>)
    requires (forall id :: id in row ==> id !in other) && Placed(row, sizes, x, before)
    requires forall id :: id in before ==> id in after
    requires forall id :: id in before && id !in other ==> after[id] == before[id]
    ensures Placed(row, sizes, x, after)
  {
    forall i | 0 <= i < |row|
      ensures At(row, sizes, x, after, i)
    {
      assert row[i] in row && At(row, sizes, x, before, i);
    }
  }

  /** Everything known about the placed rows, gathered for the two lemmas below. */
  ghost predicate Arranged(topLevel: seq<Id>, layers: Layers, rows: Rows, sizes: map<Id, Size>, xs: seq<nat>,
                           layout: map<Id, Rect>) {
    && (forall id :: id in topLevel ==> id in layers && layers[id] in rows && id in rows[layers[id]])
    && (forall l, id :: l in rows && id in rows[l] ==> id in sizes)
    && (forall l :: l in rows ==> l < |xs| && Placed(rows[l], sizes, xs[l], layout))
    && ColumnsClear(rows, sizes, xs)
  }

  lemma ArrangedSlot(topLevel: seq<Id>, layers: Layers, rows: Rows, sizes: map<Id, Size>, xs: seq<nat>,
                     layout: map<Id, Rect>, a: Id) returns (i: nat)
    requires Arranged(topLevel, layers, rows, sizes, xs, layout) && a in topLevel
    ensures i < |rows[layers[a]]| && rows[layers[a]][i] == a && a in layout
    ensures layout[a] == Slot(rows[layers[a]], sizes, xs[layers[a]], i)
  {
    i :| 0 <= i < |rows[layers[a]]| && rows[layers[a]][i] == a;
    assert At(rows[layers[a]], sizes, xs[layers[a]], layout, i);
  }

  lemma RowSeparated(row: seq<Id>, sizes: map<Id, Size>, x: nat, i: nat, j: nat)
    requires i < |row| && j < |row| && i != j
    ensures Separated(Slot(row, sizes, x, i), Slot(row, sizes, x, j))
  {
    if i < j { RowYClear(row, sizes, i, j); } else { RowYClear(row, sizes, j, i); }
  }

  lemma ArrangedSeparated(topLevel: seq<Id>, layers: Layers, rows: Rows, sizes: map<Id, Size>, xs: seq<nat>,
                          layout: map<Id, Rect>, a: Id, b: Id)
    requires Arranged(topLevel, layers, rows, sizes, xs, layout) && a in topLevel && b in topLevel && a != b
    ensures a in layout && b in layout && Separated(layout[a], layout[b])
  {
    var i := ArrangedSlot(topLevel, layers, rows, sizes, xs, layout, a);
    var j := ArrangedSlot(topLevel, layers, rows, sizes, xs, layout, b);
    var l, k := layers[a], layers[b];
    if l == k {
      RowSeparated(rows[l], sizes, xs[l], i, j);
    } else if l < k {
      ArrangedRightward(topLevel, layers, rows, sizes, xs, layout, a, b);
    } else {
      ArrangedRightward(topLevel, layers, rows, sizes, xs, layout, b, a);
    }
  }

  lemma ArrangedRightward(topLevel: seq<Id>, layers: Layers, rows: Rows, sizes: map<Id, Size>, xs: seq<nat>,
                          layout: map<Id, Rect>, a: Id, b: Id)
    requires Arranged(topLevel, layers, rows, sizes, xs, layout) && a in topLevel && b in topLevel
    requires layers[a] < layers[b]
    ensures a in layout && b in layout && layout[a].x + layout[a].width + COLUMN_GAP <= layout[b].x
  {
    var i := ArrangedSlot(topLevel, layers, rows, sizes, xs, layout, a);
    var j := ArrangedSlot(topLevel, layers, rows, sizes, xs, layout, b);
  }

  // ---------------------------------------------------------------- children

  function ChildSlot(index: nat): Rect {
    Rect(GROUP_PADDING_X + index * (NODE_WIDTH + CHILD_GAP), GROUP_PADDING_TOP, NODE_WIDTH, NODE_HEIGHT)
  }

  lemma {:induction false} ChildSlotsInRow(i: nat, j: nat)
    requires i < j
    ensures ChildSlot(i).x + NODE_WIDTH + CHILD_GAP <= ChildSlot(j).x
  {
    var step := NODE_WIDTH + CHILD_GAP;
    assert j * step == i * step + (j - i) * step;
    assert (j - i) * step >= step;
  }

  lemma ChildSlotInside(i: nat, count: nat)
    requires i < count
    ensures ChildSlot(i).x + NODE_WIDTH + GROUP_PADDING_X <= SizeFor(count).width
  {
    var step := NODE_WIDTH + CHILD_GAP;
    if i < count - 1 { ChildSlotsInRow(i, count - 1); }
    assert (count - 1) * step == (count - 1) * NODE_WIDTH + (count - 1) * CHILD_GAP;
    assert count * NODE_WIDTH == (count - 1) * NODE_WIDTH + NODE_WIDTH;
  }

  ghost predicate ChildrenPlaced(nodes: seq<Node>, parent: Id, layout: map<Id, Rect>) {
    var children := ChildrenOf(nodes, parent);
    forall i :: 0 <= i < |children| ==> children[i] in layout && layout[children[i]] == ChildSlot(i)
  }

  method PlaceGroup(nodes: seq<Node>, parent: Id, children: seq<Id>, before: map<Id, Rect>)
    returns (layout: map<Id, Rect>)
    requires UniqueIds(nodes) && children == ChildrenOf(nodes, parent)
    ensures ChildrenPlaced(nodes, parent, layout)
    ensures forall id :: id in layout <==> id in before || id in children
    ensures forall id :: id in before && id !in children ==> layout[id] == before[id]
  {
    ChildrenFacts(nodes, parent);
    layout := PlaceInSlots(children, before);
  }

  method PlaceInSlots(children: seq<Id>, before: map<Id, Rect>) returns (layout: map<Id, Rect>)
    requires NoDuplicates(children)
    ensures forall k :: 0 <= k < |children| ==> children[k] in layout && layout[children[k]] == ChildSlot(k)
    ensures forall id :: id in layout <==> id in before || id in children
    ensures forall id :: id in before && id !in children ==> layout[id] == before[id]
  {
    layout := before;
    for i := 0 to |children|
      invariant forall k :: 0 <= k < i ==> children[k] in layout && layout[children[k]] == ChildSlot(k)
      invariant forall id :: id in layout <==> id in before || id in children[..i]
      invariant forall id :: id in before && id !in children ==> layout[id] == before[id]
    {
      layout := layout[children[i] := ChildSlot(i)];
      assert children[..i + 1] == children[..i] + [children[i]];
    }
    assert children[..|children|] == children;
  }

  method PlaceChildren(nodes: seq<Node>, childrenOf: map<Id, seq<Id>>, before: map<Id, Rect>)
    returns (layout: map<Id, Rect>)
    requires UniqueIds(nodes)
    requires ChildrenIndexed(nodes, childrenOf)
    ensures forall p :: ChildrenPlaced(nodes, p, layout)
    ensures forall id :: id in before ==> id in layout
    ensures forall id :: id in layout && id !in before ==> exists p :: p in childrenOf && id in childrenOf[p]
    ensures forall id :: id in before && (forall p :: p in childrenOf ==> id !in childrenOf[p]) ==>
                           layout[id] == before[id]
  {
    layout := before;
    var left := childrenOf.Keys;
    while left != {}
      invariant left <= childrenOf.Keys
      invariant forall p :: p in childrenOf && p !in left ==> ChildrenPlaced(nodes, p, layout)
      invariant forall id :: id in before ==> id in layout
      invariant forall id :: id in layout && id !in before ==> exists p :: p in childrenOf && id in childrenOf[p]
      invariant forall id :: id in before && (forall p :: p in childrenOf ==> id !in childrenOf[p]) ==>
                               layout[id] == before[id]
    {
      var parent :| parent in left;
      ghost var earlier := layout;
      layout := PlaceGroup(nodes, parent, childrenOf[parent], layout);
      left := left - {parent};
      forall p | p in childrenOf && p !in left
        ensures ChildrenPlaced(nodes, p, layout)
      {
        if p != parent { GroupKept(nodes, p, parent, earlier, layout); }
      }
    }
  }

  lemma GroupKept(nodes: seq<Node>, p: Id, parent: Id, before: map<Id, Rect>, after: map<Id, Rect>)
    requires UniqueIds(nodes) && p != parent && ChildrenPlaced(nodes, p, before)
    requires forall id :: id in before ==> id in after
    requires forall id :: id in before && id !in ChildrenOf(nodes, parent) ==> after[id] == before[id]
    ensures ChildrenPlaced(nodes, p, after)
  {
    ChildrenFacts(nodes, p);
    ChildrenFacts(nodes, parent);
    var children := ChildrenOf(nodes, p);
    forall i | 0 <= i < |children|
      ensures children[i] in after && after[children[i]] == ChildSlot(i)
    {
      assert children[i] in children;
    }
  }

  lemma PlacedChildrenFit(nodes: seq<Node>, parent: Id, layout: map<Id, Rect>)
    requires ChildrenPlaced(nodes, parent, layout)
    ensures ChildrenInRow(nodes, parent, layout)
    ensures parent in layout && layout[parent].width == SizeOf(nodes, parent).width &&
            layout[parent].height == SizeOf(nodes, parent).height ==>
              ChildrenInside(nodes, parent, layout)
  {
    var children := ChildrenOf(nodes, parent);
    forall i, j | 0 <= i < j < |children|
      ensures layout[children[i]].x + layout[children[i]].width + CHILD_GAP <= layout[children[j]].x
    {
      ChildSlotsInRow(i, j);
    }
    if parent in layout && layout[parent].width == SizeOf(nodes, parent).width &&
       layout[parent].height == SizeOf(nodes, parent).height {
      forall child | child in children
        ensures InsidePadding(layout[child], layout[parent])
      {
        var i :| 0 <= i < |children| && children[i] == child;
        ChildSlotInside(i, |children|);
      }
    }
  }

  // ---------------------------------------------------------------- the whole layout

  method ArrangeLayers(topLevel: seq<Id>, layers: Layers, sizes: map<Id, Size>)
    returns (layout: map<Id, Rect>, ghost rows: Rows, ghost xs: seq<nat>)
    requires NoDuplicates(topLevel) && forall id :: id in topLevel ==> id in layers && id in sizes
    ensures Arranged(topLevel, layers, rows, sizes, xs, layout)
    ensures RowsOf(rows, topLevel, layers) && Offsets(rows, sizes, xs)
  {
    var byLayer := GroupByLayer(topLevel, layers);
    RowsAreDisjoint(byLayer, topLevel, layers);
    var maxLayer := MaxLayer(byLayer);
    var offsets := ColumnOffsets(byLayer, sizes, maxLayer);
    layout := PlaceRows(byLayer, sizes, offsets);
    rows, xs := byLayer, offsets;
  }

  /** Layers, columns and rows together: the part of the layout that places top-level nodes. */
  method PlaceTopLevel(nodes: seq<Node>, topLevel: seq<Id>, forward: seq<Edge>, sizes: map<Id, Size>)
    returns (layout: map<Id, Rect>, ghost layers: Layers)
    requires UniqueIds(nodes) && topLevel == TopLevel(nodes) && EndpointsIn(forward, set v | v in topLevel)
    requires forall i :: 0 <= i < |nodes| ==> nodes[i].id in sizes
    requires forall id :: id in sizes ==> sizes[id] == SizeOf(nodes, id)
    ensures forall id :: id in topLevel ==> id in layout
    ensures TopLevelSeparated(nodes, layout)
    ensures forall id :: id in topLevel ==>
                           Measures(layout[id], SizeOf(nodes, id))
    ensures Acyclic(forward) ==> forall e :: e in forward ==>
                                   layout[e.source].x + layout[e.source].width + COLUMN_GAP <= layout[e.target].x
    ensures Drawn(nodes, layers, layout) && LayeredBy(topLevel, forward, layers)
  {
    TopLevelFacts(nodes);
    forall id | id in topLevel
      ensures id in sizes
    {
      var i :| 0 <= i < |nodes| && nodes[i] == Node(id, "");
    }
    var relaxed := Relax(topLevel, forward);
    layers := relaxed;
    ghost var rows, xs;
    layout, rows, xs := ArrangeLayers(topLevel, relaxed, sizes);
    ArrangedResult(nodes, forward, layers, rows, sizes, xs, layout);
    ArrangedIsDrawn(nodes, layers, rows, sizes, xs, layout);
  }

  /** What the relaxation says of the layers: lengths of walks, the longest ones where there is no cycle. */
  ghost predicate LayeredBy(topLevel: seq<Id>, forward: seq<Edge>, layers: Layers) {
    && layers.Keys == (set v | v in topLevel)
    && (forall v :: v in layers ==> HasWalk(forward, v, layers[v]))
    && (Acyclic(forward) ==> forall v :: v in layers ==> Longest(forward, v, layers[v]))
  }

  lemma {:induction false} WidestIs(nodes: seq<Node>, row: seq<Id>, sizes: map<Id, Size>)
    requires forall id :: id in row ==> id in sizes && sizes[id] == SizeOf(nodes, id)
    ensures Widest(row, sizes) == WidestBox(nodes, row)
  {
    if row != [] {
      assert row[|row| - 1] in row;
      WidestIs(nodes, row[..|row| - 1], sizes);
    }
  }

  lemma {:induction false} RowTopIs(nodes: seq<Node>, row: seq<Id>, sizes: map<Id, Size>, i: nat)
    requires i <= |row| && forall id :: id in row ==> id in sizes && sizes[id] == SizeOf(nodes, id)
    ensures RowY(row, sizes, i) == RowTop(nodes, row, i)
  {
    if i > 0 {
      assert row[i - 1] in row;
      RowTopIs(nodes, row, sizes, i - 1);
    }
  }

  /** The sizes of everything that is placed are the measured ones. */
  ghost predicate Measured(nodes: seq<Node>, sizes: map<Id, Size>) {
    forall id :: id in TopLevel(nodes) ==> id in sizes && sizes[id] == SizeOf(nodes, id)
  }

  ghost predicate SameWidth(nodes: seq<Node>, layers: Layers, rows: Rows, sizes: map<Id, Size>, l: nat)
    requires forall id :: id in TopLevel(nodes) ==> id in layers
  {
    Widest(RowAt(rows, l), sizes) == WidestBox(nodes, Row(TopLevel(nodes), layers, l))
  }

  lemma SameWidths(nodes: seq<Node>, layers: Layers, rows: Rows, sizes: map<Id, Size>)
    requires RowsOf(rows, TopLevel(nodes), layers) && Measured(nodes, sizes)
    ensures forall l: nat :: SameWidth(nodes, layers, rows, sizes, l)
  {
    forall l: nat ensures SameWidth(nodes, layers, rows, sizes, l) {
      RowFacts(TopLevel(nodes), layers, l);
      WidestIs(nodes, Row(TopLevel(nodes), layers, l), sizes);
    }
  }

  ghost predicate StepsBy(nodes: seq<Node>, layers: Layers, xs: seq<nat>, l: nat)
    requires 0 < l < |xs| && forall id :: id in TopLevel(nodes) ==> id in layers
  {
    xs[l] == xs[l - 1] + WidestBox(nodes, Row(TopLevel(nodes), layers, l - 1)) + 64
  }

  lemma {:induction false} ColumnIs(nodes: seq<Node>, layers: Layers, xs: seq<nat>, l: nat)
    requires l < |xs| && xs[0] == 0 && forall id :: id in TopLevel(nodes) ==> id in layers
    requires forall k :: 0 < k < |xs| ==> StepsBy(nodes, layers, xs, k)
    ensures xs[l] == ColumnX(nodes, layers, l)
  {
    if l > 0 {
      ColumnIs(nodes, layers, xs, l - 1);
      assert StepsBy(nodes, layers, xs, l);
    }
  }

  lemma AllSteps(nodes: seq<Node>, layers: Layers, rows: Rows, sizes: map<Id, Size>, xs: seq<nat>)
    requires Offsets(rows, sizes, xs) && forall id :: id in TopLevel(nodes) ==> id in layers
    requires forall l: nat :: SameWidth(nodes, layers, rows, sizes, l)
    ensures forall k :: 0 < k < |xs| ==> StepsBy(nodes, layers, xs, k)
  {
    forall k | 0 < k < |xs| ensures StepsBy(nodes, layers, xs, k) {
      assert OffsetAt(rows, sizes, xs, k) && SameWidth(nodes, layers, rows, sizes, k - 1);
    }
  }

  lemma ArrangedIsDrawn(nodes: seq<Node>, layers: Layers, rows: Rows, sizes: map<Id, Size>, xs: seq<nat>,
                        layout: map<Id, Rect>)
    requires Arranged(TopLevel(nodes), layers, rows, sizes, xs, layout) && Measured(nodes, sizes)
    requires RowsOf(rows, TopLevel(nodes), layers) && Offsets(rows, sizes, xs)
    ensures Drawn(nodes, layers, layout)
  {
    SameWidths(nodes, layers, rows, sizes);
    AllSteps(nodes, layers, rows, sizes, xs);
    forall layer: nat, i: nat | i < |Row(TopLevel(nodes), layers, layer)|
      ensures BoxDrawn(nodes, layers, layout, layer, i)
    {
      ColumnIs(nodes, layers, xs, layer);
      RowIsDrawn(nodes, layers, rows, sizes, xs, layout, layer, i);
    }
  }

  lemma RowIsDrawn(nodes: seq<Node>, layers: Layers, rows: Rows, sizes: map<Id, Size>, xs: seq<nat>,
                   layout: map<Id, Rect>, layer: nat, i: nat)
    requires RowsOf(rows, TopLevel(nodes), layers) && Measured(nodes, sizes)
    requires i < |Row(TopLevel(nodes), layers, layer)| && layer < |xs| && xs[layer] == ColumnX(nodes, layers, layer)
    requires Placed(Row(TopLevel(nodes), layers, layer), sizes, xs[layer], layout)
    ensures BoxDrawn(nodes, layers, layout, layer, i)
  {
    var row := Row(TopLevel(nodes), layers, layer);
    RowFacts(TopLevel(nodes), layers, layer);
    assert At(row, sizes, xs[layer], layout, i);
    RowTopIs(nodes, row, sizes, i);
    assert row[i] in row;
  }

  lemma ArrangedResult(nodes: seq<Node>, forward: seq<Edge>, layers: Layers, rows: Rows, sizes: map<Id, Size>,
                       xs: seq<nat>, layout: map<Id, Rect>)
    requires Arranged(TopLevel(nodes), layers, rows, sizes, xs, layout)
    requires forall id :: id in sizes ==> sizes[id] == SizeOf(nodes, id)
    requires forall e :: e in forward ==> e.source in TopLevel(nodes) && e.target in TopLevel(nodes)
    ensures forall id :: id in TopLevel(nodes) ==> id in layout
    ensures TopLevelSeparated(nodes, layout)
    ensures forall id :: id in TopLevel(nodes) ==>
                           Measures(layout[id], SizeOf(nodes, id))
    ensures Rightward(forward, layers) ==>
              forall e :: e in forward ==>
                            layout[e.source].x + layout[e.source].width + COLUMN_GAP <= layout[e.target].x
  {
    var topLevel := TopLevel(nodes);
    forall a | a in topLevel
      ensures a in layout && Measures(layout[a], SizeOf(nodes, a))
    {
      var i := ArrangedSlot(topLevel, layers, rows, sizes, xs, layout, a);
    }
    forall a, b | a in topLevel && b in topLevel && a != b
      ensures Separated(layout[a], layout[b])
    {
      ArrangedSeparated(topLevel, layers, rows, sizes, xs, layout, a, b);
    }
    forall e | e in forward && Rightward(forward, layers)
      ensures layout[e.source].x + layout[e.source].width + COLUMN_GAP <= layout[e.target].x
    {
      ArrangedRightward(topLevel, layers, rows, sizes, xs, layout, e.source, e.target);
    }
  }

  lemma RowsAreDisjoint(rows: Rows, topLevel: seq<Id>, layers: Layers)
    requires RowsOf(rows, topLevel, layers) && NoDuplicates(topLevel)
    ensures RowsDisjoint(rows)
    ensures forall l, id :: l in rows && id in rows[l] ==> id in topLevel
    ensures forall id :: id in topLevel ==> layers[id] in rows && id in rows[layers[id]]
  {
    forall l: nat
      ensures l in rows ==> NoDuplicates(rows[l])
      ensures forall id :: id in Row(topLevel, layers, l) <==> id in topLevel && layers[id] == l
    {
      RowFacts(topLevel, layers, l);
    }
    forall id | id in topLevel
      ensures layers[id] in rows && id in rows[layers[id]]
    {
      assert id in Row(topLevel, layers, layers[id]);
    }
  }

  /**
   `layoutProjection`: for every projection with unique ids, cyclic or not, no two top-level
   boxes come closer than the gaps; children form a row, inside the padding of a top-level
   parent; and on acyclic forward edges every one of them points strictly to the right.
   */
  method LayoutProjection(nodes: seq<Node>, edges: seq<ProjectionEdge>)
    returns (layout: map<Id, Rect>, ghost layers: Layers)
    requires UniqueIds(nodes)
    ensures forall i :: 0 <= i < |nodes| ==> nodes[i].id in layout
    ensures forall id :: id in TopLevel(nodes) ==> id in layout && Measures(layout[id], SizeOf(nodes, id))
    ensures Drawn(nodes, layers, layout) && LayeredBy(TopLevel(nodes), Forward(nodes, edges), layers)
    ensures forall p :: ChildrenDrawn(nodes, p, layout)
    ensures TopLevelSeparated(nodes, layout)
    ensures forall p :: ChildrenInRow(nodes, p, layout)
    ensures forall p :: p in TopLevel(nodes) ==> ChildrenInside(nodes, p, layout)
    ensures Acyclic(Forward(nodes, edges)) ==>
              forall e :: e in Forward(nodes, edges) ==>
                            e.source in layout && e.target in layout &&
                            layout[e.source].x + layout[e.source].width + COLUMN_GAP <= layout[e.target].x
  {
    var parentOf, childrenOf := IndexParents(nodes);
    var sizes := MeasureNodes(nodes, childrenOf);
    var topLevel, forward := ForwardEdges(nodes, edges, parentOf);
    ForwardEndpoints(nodes, edges, set v | v in topLevel);
    var outer;
    outer, layers := PlaceTopLevel(nodes, topLevel, forward, sizes);
    layout := PlaceChildren(nodes, childrenOf, outer);
    OuterKept(nodes, childrenOf, outer, layout);
    StaysDrawn(nodes, layers, outer, layout);
    AllChildrenFit(nodes, layout);
    AllPlaced(nodes, layout);
  }

  lemma AllChildrenFit(nodes: seq<Node>, layout: map<Id, Rect>)
    requires forall p :: ChildrenPlaced(nodes, p, layout)
    requires forall id :: id in TopLevel(nodes) ==> id in layout && Measures(layout[id], SizeOf(nodes, id))
    ensures forall p :: ChildrenInRow(nodes, p, layout) && ChildrenDrawn(nodes, p, layout)
    ensures forall p :: p in TopLevel(nodes) ==> ChildrenInside(nodes, p, layout)
  {
    forall p
      ensures ChildrenInRow(nodes, p, layout) && ChildrenDrawn(nodes, p, layout)
      ensures p in TopLevel(nodes) ==> ChildrenInside(nodes, p, layout)
    {
      assert ChildrenPlaced(nodes, p, layout);
      PlacedChildrenFit(nodes, p, layout);
    }
  }

  lemma AllPlaced(nodes: seq<Node>, layout: map<Id, Rect>)
    requires UniqueIds(nodes) && forall id :: id in TopLevel(nodes) ==> id in layout
    requires forall p :: ChildrenPlaced(nodes, p, layout)
    ensures forall i :: 0 <= i < |nodes| ==> nodes[i].id in layout
  {
    TopLevelFacts(nodes);
    forall i | 0 <= i < |nodes|
      ensures nodes[i].id in layout
    {
      if nodes[i].parent != "" {
        ChildrenFacts(nodes, nodes[i].parent);
        assert nodes[i] == Node(nodes[i].id, nodes[i].parent);
        assert ChildrenPlaced(nodes, nodes[i].parent, layout);
        assert nodes[i].id in ChildrenOf(nodes, nodes[i].parent);
      } else {
        assert nodes[i] == Node(nodes[i].id, "");
      }
    }
  }

  lemma OuterKept(nodes: seq<Node>, childrenOf: map<Id, seq<Id>>, before: map<Id, Rect>, after: map<Id, Rect>)
    requires UniqueIds(nodes) && ChildrenIndexed(nodes, childrenOf)
    requires forall id :: id in before ==> id in after
    requires forall id :: id in before && (forall p :: p in childrenOf ==> id !in childrenOf[p]) ==>
                            after[id] == before[id]
    ensures forall id :: id in TopLevel(nodes) && id in before ==> id in after && after[id] == before[id]
  {
    forall id | id in TopLevel(nodes) && id in before
      ensures after[id] == before[id]
    {
      forall p | p in childrenOf
        ensures id !in childrenOf[p]
      {
        TopLevelIsNoChild(nodes, id, p);
      }
    }
  }

  lemma StaysDrawn(nodes: seq<Node>, layers: Layers, before: map<Id, Rect>, after: map<Id, Rect>)
    requires Drawn(nodes, layers, before)
    requires forall id :: id in TopLevel(nodes) && id in before ==> id in after && after[id] == before[id]
    ensures Drawn(nodes, layers, after)
  {
    forall layer: nat, i: nat | i < |Row(TopLevel(nodes), layers, layer)|
      ensures BoxDrawn(nodes, layers, after, layer, i)
    {
      assert BoxDrawn(nodes, layers, before, layer, i);
      RowFacts(TopLevel(nodes), layers, layer);
      assert Row(TopLevel(nodes), layers, layer)[i] in Row(TopLevel(nodes), layers, layer);
    }
  }

  lemma TopLevelIsNoChild(nodes: seq<Node>, id: Id, p: Id)
    requires UniqueIds(nodes) && id in TopLevel(nodes)
    ensures id !in ChildrenOf(nodes, p)
  {
    TopLevelFacts(nodes);
    ChildrenFacts(nodes, p);
  }
}
