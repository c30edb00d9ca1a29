/**
  Adding a map item to a mission (upsert_mission_uid_and_change in raven/models/MissionChange.py):
  the mission_uids row by its ordinary path and by its collision path, and the change record.
*/
module MissionUpsert {
  import opened Wrappers

  datatype Value = Text(text: string) | Number(number: real)
  datatype Column = CotType | Callsign | IconsetPath | Color | Latitude | Longitude

  /** The optional columns; None is NULL in a row and "no new value" in a call. */
  datatype Columns = Columns(cotType: Option<Value>, callsign: Option<Value>, iconsetPath: Option<Value>,
                             color: Option<Value>, latitude: Option<Value>, longitude: Option<Value>)
  {
    function Of(c: Column): Option<Value> {
      match c
      case CotType => cotType
      case Callsign => callsign
      case IconsetPath => iconsetPath
      case Color => color
      case Latitude => latitude
      case Longitude => longitude
    }

    function With(c: Column, v: Option<Value>): (r: Columns)
      ensures forall d :: r.Of(d) == if d == c then v else Of(d)
    {
      match c
      case CotType => this.(cotType := v)
      case Callsign => this.(callsign := v)
      case IconsetPath => this.(iconsetPath := v)
      case Color => this.(color := v)
      case Latitude => this.(latitude := v)
      case Longitude => this.(longitude := v)
    }
  }

  const BLANK := Columns(None, None, None, None, None, None)

  /** A mission_uids row; the uid alone is its primary key. */
  datatype Item = Item(mission: string, timestamp: int, creator: string, columns: Columns)

  datatype Kind = AddContent | RemoveContent | OtherChange
  datatype Change = Change(mission: string, item: string, kind: Kind, creator: string, timestamp: int, serverTime: int)

  datatype Call = Call(mission: string, item: string, timestamp: int, creator: string, supplied: Columns, serverTime: int)

  datatype Tables = Tables(items: map<string, Item>, changes: map<nat, Change>, nextId: nat)

  // --- what a call does, by either path ---

  function Over(old': Option<Value>, new': Option<Value>): Option<Value> {
    if new'.Some? then new' else old'
  }

  function OverAll(old': Columns, new': Columns): (r: Columns)
    ensures forall c :: r.Of(c) == Over(old'.Of(c), new'.Of(c))
  {
    Columns(Over(old'.cotType, new'.cotType), Over(old'.callsign, new'.callsign), Over(old'.iconsetPath, new'.iconsetPath),
            Over(old'.color, new'.color), Over(old'.latitude, new'.latitude), Over(old'.longitude, new'.longitude))
  }

  /** The row merged with the call: it is in the call's mission now, and keeps what the call leaves out. */
  function Merged(items: map<string, Item>, call: Call): Item {
    var before := if call.item in items then items[call.item].columns else BLANK;
    Item(call.mission, call.timestamp, call.creator, OverAll(before, call.supplied))
  }

  predicate IsAddOf(change: Change, mission: string, item: string) {
    change.kind.AddContent? && change.mission == mission && change.item == item
  }

  ghost predicate OneAddEach(changes: map<nat, Change>) {
    forall i, j | i in changes && j in changes && i != j && changes[i].kind.AddContent? ::
      !IsAddOf(changes[j], changes[i].mission, changes[i].item)
  }

  function HasAdd(changes: map<nat, Change>, call: Call): bool {
    exists id | id in changes :: IsAddOf(changes[id], call.mission, call.item)
  }

  function Recorded(t: Tables, call: Call): map<nat, Change> {
    var change := Change(call.mission, call.item, AddContent, call.creator, call.timestamp, call.serverTime);
    if HasAdd(t.changes, call) then
      map id | id in t.changes :: if IsAddOf(t.changes[id], call.mission, call.item) then change else t.changes[id]
    else t.changes[t.nextId := change]
  }

  function Upserted(t: Tables, call: Call): Tables {
    Tables(t.items[call.item := Merged(t.items, call)], Recorded(t, call),
           if HasAdd(t.changes, call) then t.nextId else t.nextId + 1)
  }

  ghost predicate Sound(t: Tables) {
    OneAddEach(t.changes) && forall id | id in t.changes :: id < t.nextId
  }

  class Store {
    var items: map<string, Item>
    var changes: map<nat, Change>
    var nextId: nat

    constructor (t: Tables)
      ensures Here() == t
    {
      items, changes, nextId := t.items, t.changes, t.nextId;
    }

    ghost function Here(): Tables
      reads this
    {
      Tables(items, changes, nextId)
    }

    /**
      The mission_uids half. raced is a row another process inserts for the same uid between the
      lookup and the commit, if one does. Ordinary path and collision path merge alike.
    */
    method UpsertItem(call: Call, raced: Option<Item>)
      modifies this`items
      ensures var there := if raced.Some? && call.item !in old(items) then old(items)[call.item := raced.value] else old(items);
              items == there[call.item := Merged(there, call)]
      ensures call.item in items && items[call.item].mission == call.mission
              && items[call.item].timestamp == call.timestamp && items[call.item].creator == call.creator
    {
      var found := call.item in items && items[call.item].mission == call.mission;
      var columns := if found then items[call.item].columns else BLANK;
      columns := Assign(columns, call.supplied);
      var row := Item(call.mission, call.timestamp, call.creator, columns);
      if raced.Some? && call.item !in items {
        items := items[call.item := raced.value];
      }
      if found || call.item !in items {
        items := items[call.item := row];
      } else {
        // IntegrityError: only the supplied columns are overwritten
        var values := Supplied(call.supplied);
        var there := items[call.item].columns;
        ghost var before := there;
        var todo := [CotType, Callsign, IconsetPath, Color, Latitude, Longitude];
        for k := 0 to |todo|
          invariant forall c :: there.Of(c) == if c in todo[..k] && c in values then Some(values[c]) else before.Of(c)
        {
          if todo[k] in values {
            there := there.With(todo[k], Some(values[todo[k]]));
          }
        }
        EveryColumn(todo);
        assert todo[..|todo|] == todo;
        SameColumns(there, OverAll(before, call.supplied));
        items := items[call.item := Item(call.mission, call.timestamp, call.creator, there)];
      }
    }

    /** The change half: the ADD_CONTENT row of this item in this mission is refreshed, or made. */
    method RecordChange(call: Call)
      requires Sound(Here())
      modifies this`changes, this`nextId
      ensures changes == Recorded(old(Here()), call)
      ensures nextId == if HasAdd(old(changes), call) then old(nextId) else old(nextId) + 1
    {
      var change := Change(call.mission, call.item, AddContent, call.creator, call.timestamp, call.serverTime);
      if id :| id in changes && IsAddOf(changes[id], call.mission, call.item) {
        changes := changes[id := change];
      } else {
        changes := changes[nextId := change];
        nextId := nextId + 1;
      }
    }

    method Upsert(call: Call)
      requires Sound(Here())
      modifies this
      ensures Here() == Upserted(old(Here()), call)
      ensures Sound(Here())
    {
      UpsertKeepsSound(Here(), call);
      UpsertItem(call, None);
      RecordChange(call);
    }
  }

  /** The ordinary path: a column is assigned only if the call has a value for it. */
  method Assign(columns: Columns, supplied: Columns) returns (r: Columns)
    ensures r == OverAll(columns, supplied)
  {
    r := columns;
    if supplied.cotType.Some? { r := r.(cotType := supplied.cotType); }
    if supplied.callsign.Some? { r := r.(callsign := supplied.callsign); }
    if supplied.iconsetPath.Some? { r := r.(iconsetPath := supplied.iconsetPath); }
    if supplied.color.Some? { r := r.(color := supplied.color); }
    if supplied.latitude.Some? { r := r.(latitude := supplied.latitude); }
    if supplied.longitude.Some? { r := r.(longitude := supplied.longitude); }
  }

  /** The collision path's dict of values to update. */
  function Supplied(columns: Columns): map<Column, Value> {
    map c | c in {CotType, Callsign, IconsetPath, Color, Latitude, Longitude} && columns.Of(c).Some? :: columns.Of(c).value
  }

  lemma EveryColumn(todo: seq<Column>)
    requires todo == [CotType, Callsign, IconsetPath, Color, Latitude, Longitude]
    ensures forall c: Column :: c in todo
  {
    forall c: Column ensures c in todo {
      match c
      case CotType => assert todo[0] == c;
      case Callsign => assert todo[1] == c;
      case IconsetPath => assert todo[2] == c;
      case Color => assert todo[3] == c;
      case Latitude => assert todo[4] == c;
      case Longitude => assert todo[5] == c;
    }
  }

  lemma SameColumns(a: Columns, b: Columns)
    requires forall c :: a.Of(c) == b.Of(c)
    ensures a == b
  {
    assert a.Of(CotType) == b.Of(CotType) && a.Of(Callsign) == b.Of(Callsign) && a.Of(IconsetPath) == b.Of(IconsetPath);
    assert a.Of(Color) == b.Of(Color) && a.Of(Latitude) == b.Of(Latitude) && a.Of(Longitude) == b.Of(Longitude);
  }

  lemma UpsertKeepsSound(t: Tables, call: Call)
    requires Sound(t)
    ensures Sound(Upserted(t, call))
  {
  }

  // --- runs of upserts ---

  function After(t: Tables, calls: seq<Call>): Tables {
    if calls == [] then t else Upserted(After(t, calls[..|calls| - 1]), calls[|calls| - 1])
  }

  /** The last value any call gave a column of an item, if one did. */
  function LastSupplied(calls: seq<Call>, item: string, c: Column): Option<Value> {
    if calls == [] then None
    else
      var last := calls[|calls| - 1];
      if last.item == item && last.supplied.Of(c).Some? then last.supplied.Of(c)
      else LastSupplied(calls[..|calls| - 1], item, c)
  }

  /** Over any run of upserts an item and mission have at most one ADD_CONTENT change. */
  lemma {:induction false} RunKeepsOneAddEach(t: Tables, calls: seq<Call>)
    requires Sound(t)
    ensures Sound(After(t, calls))
  {
    if calls != [] {
      RunKeepsOneAddEach(t, calls[..|calls| - 1]);
      UpsertKeepsSound(After(t, calls[..|calls| - 1]), calls[|calls| - 1]);
    }
  }

  /** And every item upserted into a mission has one. */
  lemma {:induction false} EveryCallIsRecorded(t: Tables, calls: seq<Call>, k: nat)
    requires Sound(t) && k < |calls|
    ensures HasAdd(After(t, calls).changes, calls[k])
  {
    var n := |calls| - 1;
    var before, last := After(t, calls[..n]), calls[n];
    if k < n {
      EveryCallIsRecorded(t, calls[..n], k);
      var id :| id in before.changes && IsAddOf(before.changes[id], calls[k].mission, calls[k].item);
      RunKeepsOneAddEach(t, calls[..n]);
      assert IsAddOf(Upserted(before, last).changes[id], calls[k].mission, calls[k].item);
    } else if HasAdd(before.changes, last) {
      var id :| id in before.changes && IsAddOf(before.changes[id], last.mission, last.item);
      assert IsAddOf(Upserted(before, last).changes[id], last.mission, last.item);
    } else {
      assert IsAddOf(Upserted(before, last).changes[before.nextId], last.mission, last.item);
    }
  }

  /** Changes of other kinds, REMOVE_CONTENT among them, are neither changed nor made. */
  lemma {:induction false} OtherChangesUntouched(t: Tables, calls: seq<Call>, id: nat)
    requires Sound(t)
    ensures id in t.changes && !t.changes[id].kind.AddContent? ==>
              id in After(t, calls).changes && After(t, calls).changes[id] == t.changes[id]
    ensures id in After(t, calls).changes && !After(t, calls).changes[id].kind.AddContent? ==>
              id in t.changes && After(t, calls).changes[id] == t.changes[id]
  {
    if calls != [] {
      OtherChangesUntouched(t, calls[..|calls| - 1], id);
      RunKeepsOneAddEach(t, calls[..|calls| - 1]);
    }
  }

  /** Over any run each optional column holds the last value supplied for it, or what it held before the run. */
  lemma {:induction false} LastSuppliedWins(t: Tables, calls: seq<Call>, item: string, c: Column)
    ensures item in After(t, calls).items <==> item in t.items || exists k :: 0 <= k < |calls| && calls[k].item == item
    ensures item in After(t, calls).items ==>
              After(t, calls).items[item].columns.Of(c)
              == Over(if item in t.items then t.items[item].columns.Of(c) else None, LastSupplied(calls, item, c))
    ensures item !in After(t, calls).items ==> LastSupplied(calls, item, c) == None
  {
    if calls != [] {
      var n := |calls| - 1;
      var front := calls[..n];
      LastSuppliedWins(t, front, item, c);
      var before, after := After(t, front).items, After(t, calls).items;
      assert after == before[calls[n].item := Merged(before, calls[n])];
      assert forall k | 0 <= k < n :: calls[k] == front[k];
    }
  }

  /** Over any run an item is in the mission of the last call for it, with its time and creator. */
  lemma {:induction false} LastCallPlacesItem(t: Tables, calls: seq<Call>, k: nat)
    requires k < |calls| && forall j | k < j < |calls| :: calls[j].item != calls[k].item
    ensures var items, call := After(t, calls).items, calls[k];
            && call.item in items && items[call.item].mission == call.mission
            && items[call.item].timestamp == call.timestamp && items[call.item].creator == call.creator
    decreases |calls|
  {
    var n := |calls| - 1;
    var before := After(t, calls[..n]).items;
    assert After(t, calls).items == before[calls[n].item := Merged(before, calls[n])];
    if k < n {
      assert calls[n].item != calls[k].item;
      LastCallPlacesItem(t, calls[..n], k);
    }
  }

  /** An item no call is for is as it was. */
  lemma {:induction false} UncalledItemStays(t: Tables, calls: seq<Call>, item: string)
    requires forall k | 0 <= k < |calls| :: calls[k].item != item
    ensures item in After(t, calls).items <==> item in t.items
    ensures item in t.items ==> After(t, calls).items[item] == t.items[item]
  {
    if calls != [] {
      UncalledItemStays(t, calls[..|calls| - 1], item);
    }
  }

  /** What one call does to the ADD_CONTENT rows of a mission and item. */
  lemma RecordedRows(t: Tables, call: Call, id: nat)
    requires Sound(t)
    ensures var after := Upserted(t, call).changes;
            id in after && after[id].kind == AddContent ==>
              if after[id].mission == call.mission && after[id].item == call.item then
                after[id].creator == call.creator && after[id].timestamp == call.timestamp && after[id].serverTime == call.serverTime
              else id in t.changes && after[id] == t.changes[id]
  {
  }

  /**
    Over any run the ADD_CONTENT change of a mission and item carries the creator, time and server time of the
    last call for both; one no call is for is as it was.
  */
  lemma {:induction false} LastCallIsRecorded(t: Tables, calls: seq<Call>, id: nat)
    requires Sound(t) && id in After(t, calls).changes && After(t, calls).changes[id].kind == AddContent
    ensures var change := After(t, calls).changes[id];
            && ((forall k | 0 <= k < |calls| :: !(calls[k].mission == change.mission && calls[k].item == change.item)) ==>
                  id in t.changes && change == t.changes[id])
            && forall k | 0 <= k < |calls| && calls[k].mission == change.mission && calls[k].item == change.item
                          && (forall j | k < j < |calls| :: !(calls[j].mission == change.mission && calls[j].item == change.item)) ::
                 change.creator == calls[k].creator && change.timestamp == calls[k].timestamp && change.serverTime == calls[k].serverTime
  {
    if calls != [] {
      var n := |calls| - 1;
      var front, change := calls[..n], After(t, calls).changes[id];
      RunKeepsOneAddEach(t, front);
      RecordedRows(After(t, front), calls[n], id);
      assert forall k | 0 <= k < n :: calls[k] == front[k];
      if !(change.mission == calls[n].mission && change.item == calls[n].item) {
        LastCallIsRecorded(t, front, id);
      }
    }
  }
}
