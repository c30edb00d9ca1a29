/**
  The canvas of the hub's native policy editor (raven/fedhub_partners.py, the "policy edits"
  section): every node of the policy graph has an item with a position, and a new node gets the
  first free cell of a five column grid.
*/
module Canvas {
  import opened Wrappers
  import opened Sets

  /** A coordinate as found in the policy's JSON: a number or anything else. */
  datatype Coord = NoNumber | Number(value: real)

  /** An element of the canvas: a JSON object, or something else that is carried along. */
  datatype Item = Foreign(json: string) | Item(id: Option<string>, x: Coord, y: Coord)

  /** graph["nodes"]: absent, None and {} are one case, the hub turns an empty list into {}. */
  datatype Nodes =
    | NoNodes
    | ListNodes(items: seq<Item>)
    | DictNodes(entries: seq<(string, Item)>)

  type Position = (int, int)

  /** Python's round(): to the nearest integer, halves to the even one. */
  function Round(x: real): int {
    var low := x.Floor;
    var part := x - low as real;
    if part < 0.5 then low
    else if part > 0.5 then low + 1
    else if low % 2 == 0 then low
    else low + 1
  }

  function Values(nodes: Nodes): seq<Item> {
    match nodes
    case NoNodes => []
    case ListNodes(items) => items
    case DictNodes(entries) => seq(|entries|, i requires 0 <= i < |entries| => entries[i].1)
  }

  predicate Placed(item: Item) {
    item.Item? && item.x.Number? && item.y.Number?
  }

  function PositionOf(item: Item): Position
    requires Placed(item)
  {
    (Round(item.x.value), Round(item.y.value))
  }

  /** The rounded positions of every placed item. */
  function Taken(items: seq<Item>): set<Position> {
    set item | item in items && Placed(item) :: PositionOf(item)
  }

  function Cell(index: nat): Position {
    (120 + 220 * (index % 5), 90 + 150 * (index / 5))
  }

  function Abs(x: int): nat {
    if x < 0 then -x else x
  }

  /** Two items closer than this overlap on the canvas. */
  predicate Near(a: Position, b: Position) {
    Abs(a.0 - b.0) < 170 && Abs(a.1 - b.1) < 80
  }

  predicate Blocked(taken: set<Position>, index: nat) {
    exists t | t in taken :: Near(Cell(index), t)
  }

  ghost function CellsNear(t: Position, bound: nat): set<int> {
    set j | 0 <= j < bound && Near(Cell(j), t)
  }

  ghost function CellsBlocked(taken: set<Position>, bound: nat): set<int> {
    set j | 0 <= j < bound && Blocked(taken, j)
  }

  ghost function Below(n: nat): (s: set<int>)
    ensures |s| == n
    ensures forall j :: j in s <==> 0 <= j < n
  {
    if n == 0 then {} else Below(n - 1) + {n - 1}
  }

  /** A position is near at most two columns and at most two rows of the grid. */
  lemma FourCellsPerPosition(t: Position, bound: nat)
    ensures |CellsNear(t, bound)| <= 4
  {
    var c := (t.0 - 290) / 220 + 1;
    var r := (t.1 - 170) / 150 + 1;
    var cells := {5 * r + c} + {5 * r + c + 1} + {5 * (r + 1) + c} + {5 * (r + 1) + c + 1};
    forall j | j in CellsNear(t, bound)
      ensures j in cells
    {
      var col, row := j % 5, j / 5;
      assert j == 5 * row + col;
      assert col == c || col == c + 1;
      assert row == r || row == r + 1;
    }
    SubsetSize(CellsNear(t, bound), cells);
  }

  /** Each taken position blocks at most four cells, whatever part of the grid is looked at. */
  lemma {:induction false} FewBlockedCells(taken: set<Position>, bound: nat)
    ensures |CellsBlocked(taken, bound)| <= 4 * |taken|
  {
    if taken == {} {
      assert CellsBlocked(taken, bound) == {};
    } else {
      var t :| t in taken;
      var rest := taken - {t};
      FewBlockedCells(rest, bound);
      FourCellsPerPosition(t, bound);
      var both := CellsBlocked(rest, bound) + CellsNear(t, bound);
      forall j | j in CellsBlocked(taken, bound)
        ensures j in both
      {
        var u :| u in taken && Near(Cell(j), u);
        if u != t {
          assert u in rest;
        }
      }
      SubsetSize(CellsBlocked(taken, bound), both);
    }
  }

  /** If a whole prefix of the grid is blocked, that prefix is at most four cells per position. */
  lemma BlockedPrefixIsShort(taken: set<Position>, n: nat)
    requires forall j: nat | j < n :: Blocked(taken, j)
    ensures n <= 4 * |taken|
  {
    FewBlockedCells(taken, n);
    assert CellsBlocked(taken, n) == Below(n);
  }

  /** The index add_view_node picks: the first free cell, found within the bound. */
  function FirstFree(taken: set<Position>, from: nat): (index: nat)
    requires forall j: nat | j < from :: Blocked(taken, j)
    ensures !Blocked(taken, index)
    ensures forall j: nat | j < index :: Blocked(taken, j)
    ensures index <= 4 * |taken|
    decreases 4 * |taken| + 1 - from
  {
    BlockedPrefixIsShort(taken, from);
    if !Blocked(taken, from) then from
    else
      BlockedPrefixIsShort(taken, from + 1);
      FirstFree(taken, from + 1)
  }

  function FreePosition(nodes: Nodes): Position {
    Cell(FirstFree(Taken(Values(nodes)), 0))
  }

  /** The search loop: it stops, and where it stops is the first free cell. */
  method FindFreeCell(taken: set<Position>) returns (index: nat, spot: Position)
    ensures index <= 4 * |taken|
    ensures spot == Cell(index) == (120 + 220 * (index % 5), 90 + 150 * (index / 5))
    ensures forall t | t in taken :: Abs(spot.0 - t.0) >= 170 || Abs(spot.1 - t.1) >= 80
    ensures forall j: nat | j < index :: Blocked(taken, j)
    ensures index == FirstFree(taken, 0)
  {
    index := 0;
    spot := Cell(index);
    while Blocked(taken, index)
      invariant spot == Cell(index)
      invariant forall j: nat | j < index :: Blocked(taken, j)
      decreases 4 * |taken| + 1 - index
    {
      BlockedPrefixIsShort(taken, index + 1);
      index := index + 1;
      spot := Cell(index);
    }
    BlockedPrefixIsShort(taken, index);
  }

  function NewItem(id: string, spot: Position): Item {
    Item(Some(id), Number(spot.0 as real), Number(spot.1 as real))
  }

  /** dict[key] = item: in place if the key is there, else at the end. */
  function PutEntry(entries: seq<(string, Item)>, key: string, item: Item): seq<(string, Item)> {
    if entries == [] then [(key, item)]
    else if entries[0].0 == key then [(key, item)] + entries[1..]
    else [entries[0]] + PutEntry(entries[1..], key, item)
  }

  /** A dict keeps a key's place when it is set again, and takes a new key at the end. */
  lemma {:induction false} PutEntryAt(entries: seq<(string, Item)>, id: string, item: Item, i: nat)
    requires i <= |entries| && (forall j | 0 <= j < i :: entries[j].0 != id) && (i < |entries| ==> entries[i].0 == id)
    ensures PutEntry(entries, id, item) == if i < |entries| then entries[i := (id, item)] else entries + [(id, item)]
  {
    if i > 0 {
      PutEntryAt(entries[1..], id, item, i - 1);
      assert entries == [entries[0]] + entries[1..];
    }
  }

  /** The canvas after add_view_node. */
  function AfterAddItem(nodes: Nodes, id: string): Nodes {
    var item := NewItem(id, FreePosition(nodes));
    match nodes
    case NoNodes => ListNodes([item])
    case ListNodes(items) => ListNodes(items + [item])
    case DictNodes(entries) => DictNodes(PutEntry(entries, id, item))
  }

  /**
    A new item is at least 170 or 80 away from every placed one, and all others stay: a list gets it at the
    end, a dict under its id, in the place of what was there.
  */
  lemma AddedItemIsClear(nodes: Nodes, id: string)
    ensures var x, y := FreePosition(nodes).0, FreePosition(nodes).1;
            var item := Item(Some(id), Number(x as real), Number(y as real));
            && (forall i | i in Values(nodes) && i.Item? && i.x.Number? && i.y.Number? ::
                  Abs(x - Round(i.x.value)) >= 170 || Abs(y - Round(i.y.value)) >= 80)
            && (nodes.NoNodes? ==> AfterAddItem(nodes, id) == ListNodes([item]))
            && (nodes.ListNodes? ==> AfterAddItem(nodes, id) == ListNodes(nodes.items + [item]))
            && (nodes.DictNodes? ==>
                  && AfterAddItem(nodes, id).DictNodes?
                  && var after := AfterAddItem(nodes, id).entries;
                     if exists e | e in nodes.entries :: e.0 == id then
                       exists k | 0 <= k < |nodes.entries| ::
                         nodes.entries[k].0 == id && after == nodes.entries[k := (id, item)]
                     else after == nodes.entries + [(id, item)])
  {
    var spot := FreePosition(nodes);
    forall i | i in Values(nodes) && Placed(i) ensures Abs(spot.0 - Round(i.x.value)) >= 170 || Abs(spot.1 - Round(i.y.value)) >= 80 {
      assert PositionOf(i) in Taken(Values(nodes));
    }
    if nodes.DictNodes? {
      var k, entries := 0, nodes.entries;
      while k < |entries| && entries[k].0 != id
        invariant 0 <= k <= |entries| && forall j | 0 <= j < k :: entries[j].0 != id
      {
        k := k + 1;
      }
      PutEntryAt(entries, id, NewItem(id, spot), k);
    }
  }

  predicate Names(item: Item, ids: set<string>) {
    item.Item? && item.id.Some? && item.id.value in ids
  }

  function DropItems(items: seq<Item>, ids: set<string>): seq<Item> {
    if items == [] then []
    else if Names(items[0], ids) then DropItems(items[1..], ids)
    else [items[0]] + DropItems(items[1..], ids)
  }

  function DropEntries(entries: seq<(string, Item)>, ids: set<string>): seq<(string, Item)> {
    if entries == [] then []
    else if entries[0].0 in ids || Names(entries[0].1, ids) then DropEntries(entries[1..], ids)
    else [entries[0]] + DropEntries(entries[1..], ids)
  }

  /** The canvas after remove_view_nodes. */
  function AfterDropItems(nodes: Nodes, ids: set<string>): Nodes {
    match nodes
    case NoNodes => NoNodes
    case ListNodes(items) => ListNodes(DropItems(items, ids))
    case DictNodes(entries) => DictNodes(DropEntries(entries, ids))
  }

  /** No item or key of the canvas mentions one of the ids. */
  ghost predicate Fresh(nodes: Nodes, ids: set<string>) {
    match nodes
    case NoNodes => true
    case ListNodes(items) => forall item | item in items :: !Names(item, ids)
    case DictNodes(entries) => forall e | e in entries :: e.0 !in ids && !Names(e.1, ids)
  }

  /** The canvas with the one change of shape add_view_node makes: no nodes become an empty list. */
  function Normal(nodes: Nodes): Nodes {
    if nodes.NoNodes? then ListNodes([]) else nodes
  }

  lemma {:induction false} DropItemsAppend(a: seq<Item>, b: seq<Item>, ids: set<string>)
    ensures DropItems(a + b, ids) == DropItems(a, ids) + DropItems(b, ids)
  {
    if a == [] {
      assert a + b == b;
    } else {
      assert (a + b)[1..] == a[1..] + b;
      DropItemsAppend(a[1..], b, ids);
    }
  }

  lemma {:induction false} DropItemsNone(items: seq<Item>, ids: set<string>)
    requires forall item | item in items :: !Names(item, ids)
    ensures DropItems(items, ids) == items
  {
    if items != [] {
      DropItemsNone(items[1..], ids);
    }
  }

  lemma {:induction false} DropPutEntry(entries: seq<(string, Item)>, key: string, item: Item, ids: set<string>)
    requires key in ids
    ensures DropEntries(PutEntry(entries, key, item), ids) == DropEntries(entries, ids)
  {
    if entries != [] && entries[0].0 != key {
      DropPutEntry(entries[1..], key, item, ids);
      assert PutEntry(entries, key, item)[1..] == PutEntry(entries[1..], key, item);
    } else if entries != [] {
      assert PutEntry(entries, key, item)[1..] == entries[1..];
    }
  }

  lemma {:induction false} DropEntriesNone(entries: seq<(string, Item)>, ids: set<string>)
    requires forall e | e in entries :: e.0 !in ids && !Names(e.1, ids)
    ensures DropEntries(entries, ids) == entries
  {
    if entries != [] {
      DropEntriesNone(entries[1..], ids);
    }
  }

  /** Adding a node and then dropping it (with others) is dropping the others. */
  lemma DropUndoesAdd(nodes: Nodes, id: string, ids: set<string>)
    requires id in ids
    ensures AfterDropItems(AfterAddItem(nodes, id), ids) == AfterDropItems(Normal(nodes), ids)
  {
    var item := NewItem(id, FreePosition(nodes));
    match nodes
    case NoNodes =>
      assert DropItems([item], ids) == [];
    case ListNodes(items) =>
      DropItemsAppend(items, [item], ids);
      assert DropItems([item], ids) == [];
    case DictNodes(entries) =>
      DropPutEntry(entries, id, item, ids);
  }

  lemma DropFreshIsIdentity(nodes: Nodes, ids: set<string>)
    requires Fresh(nodes, ids)
    ensures AfterDropItems(nodes, ids) == nodes
  {
    match nodes
    case NoNodes =>
    case ListNodes(items) => DropItemsNone(items, ids);
    case DictNodes(entries) => DropEntriesNone(entries, ids);
  }
}
