/**
  Deleting old rows in batches (raven/retention.py): the batched delete with its deadline and its
  files, the age test for rows whose device clock cannot be believed, and the kept mission changes.
*/
module Retention {
  import opened Wrappers
  import opened Sets

  const BATCH_SIZE := 1000

  /** A WHERE clause; it may look at the whole table, as a subquery does. */
  type Where<!T> = (map<nat, T>, nat) -> bool

  ghost function Matching<T>(rows: map<nat, T>, where': Where<T>): set<nat> {
    set id | id in rows && where'(rows, id)
  }

  ghost predicate MatchesAsBefore<T>(where': Where<T>, rows: map<nat, T>, gone: set<nat>) {
    gone <= Matching(rows, where') ==> Matching(rows - gone, where') == Matching(rows, where') - gone
  }

  /** Deleting matching rows does not change which of the others match. */
  ghost predicate Stable<T(!new)>(where': Where<T>) {
    forall rows: map<nat, T>, gone: set<nat> :: MatchesAsBefore(where', rows, gone)
  }

  /** late(k): the deadline has passed after batch k. fails(k): the commit of batch k raises. */
  datatype Conditions = Conditions(late: nat -> bool, fails: nat -> bool)

  ghost function Paths<T>(rows: map<nat, T>, ids: set<nat>, files: T -> set<string>): set<string> {
    set id, f | id in ids && id in rows && f in files(rows[id]) :: f
  }

  lemma PathsAdd<T>(rows: map<nat, T>, a: set<nat>, b: set<nat>, files: T -> set<string>)
    requires a !! b
    ensures Paths(rows, a + b, files) == Paths(rows, a, files) + Paths(rows - a, b, files)
  {
    forall f | f in Paths(rows, a + b, files)
      ensures f in Paths(rows, a, files) + Paths(rows - a, b, files)
    {
      var id :| id in a + b && id in rows && f in files(rows[id]);
      if id !in a {
        assert id in b && id in rows - a && f in files((rows - a)[id]);
      }
    }
    forall f | f in Paths(rows - a, b, files) ensures f in Paths(rows, a + b, files) {
      var id :| id in b && id in rows - a && f in files((rows - a)[id]);
      assert id in a + b && f in files(rows[id]);
    }
    forall f | f in Paths(rows, a, files) ensures f in Paths(rows, a + b, files) {
      var id :| id in a && id in rows && f in files(rows[id]);
      assert id in a + b;
    }
  }

  /** A table and the files on disk. */
  datatype Stored<T> = Stored(rows: map<nat, T>, disk: set<string>)

  /** After these rows and then their files are deleted. */
  ghost function Deleted<T>(s: Stored<T>, ids: set<nat>, files: T -> set<string>, stuck: set<string>): Stored<T> {
    Stored(s.rows - ids, s.disk - (Paths(s.rows, ids, files) - stuck))
  }

  lemma DeletedTwice<T>(s: Stored<T>, a: set<nat>, b: set<nat>, files: T -> set<string>, stuck: set<string>)
    requires a !! b
    ensures Deleted(Deleted(s, a, files, stuck), b, files, stuck) == Deleted(s, a + b, files, stuck)
  {
    PathsAdd(s.rows, a, b, files);
    assert s.rows - a - b == s.rows - (a + b);
  }

  /** The rows in n full batches. */
  function Full(n: nat): nat {
    1000 * n
  }

  /** A deadline passed or a commit failed after some number of full batches. */
  ghost predicate CutShort(c: Conditions, total: nat, failed: bool) {
    (exists n :: total == Full(n)) && if failed then exists k :: c.fails(k) else exists k :: c.late(k)
  }

  /** Taking one more batch off what earlier batches left. */
  lemma BatchAdds<T(!new)>(rows: map<nat, T>, gone: set<nat>, ids: set<nat>, where': Where<T>)
    requires Stable(where') && gone <= Matching(rows, where') && ids <= Matching(rows - gone, where')
    ensures gone + ids <= Matching(rows, where')
    ensures gone !! ids && |gone + ids| == |gone| + |ids|
    ensures ids == Matching(rows - gone, where') ==> gone + ids == Matching(rows, where')
    ensures ids != {} ==> |rows - gone - ids| < |rows - gone|
  {
    assert MatchesAsBefore(where', rows, gone);
    assert gone !! ids;
    assert (rows - gone).Keys == (rows - gone - ids).Keys + ids;
  }

  class Table<T(!new)> {
    var rows: map<nat, T>
    var disk: set<string>

    constructor (rows: map<nat, T>, disk: set<string>)
      ensures this.rows == rows && this.disk == disk
    {
      this.rows, this.disk := rows, disk;
    }

    ghost function Here(): Stored<T>
      reads this
    {
      Stored(rows, disk)
    }

    /** One committed DELETE, and then the files of its rows; removing one may fail. */
    method DeleteRows(ids: set<nat>, files: T -> set<string>, stuck: set<string>)
      requires ids <= rows.Keys
      modifies this
      ensures Here() == Deleted(old(Here()), ids, files, stuck)
    {
      var paths := set id, f | id in ids && f in files(rows[id]) :: f;
      rows := rows - ids;
      disk := disk - (paths - stuck);
    }

    /** SELECT ... WHERE ... LIMIT: any of the matching rows, as many as the limit lets through. */
    method SelectBatch(where': Where<T>) returns (ids: set<nat>)
      ensures ids <= Matching(rows, where')
      ensures |ids| < BATCH_SIZE ==> ids == Matching(rows, where')
      ensures |ids| <= BATCH_SIZE
    {
      var matching := set id | id in rows && where'(rows, id);
      var size := if |matching| < BATCH_SIZE then |matching| else BATCH_SIZE;
      SubsetOfSize(matching, size);
      ids :| ids <= matching && |ids| == size;
      if |ids| < BATCH_SIZE {
        SubsetSize(ids, matching);
      }
    }

    /** One turn of the loop: a batch is selected and, unless it is empty or its commit fails, deleted. */
    method OneBatch(where': Where<T>, files: T -> set<string>, stuck: set<string>, fails: bool,
                    ghost start: Stored<T>, ghost gone: set<nat>)
      returns (count: nat, ghost now: set<nat>)
      requires Stable(where') && gone <= Matching(start.rows, where') && Here() == Deleted(start, gone, files, stuck)
      modifies this
      ensures gone <= now <= Matching(start.rows, where') && Here() == Deleted(start, now, files, stuck)
      ensures count <= BATCH_SIZE
      ensures count == 0 || fails ==> now == gone
      ensures count == 0 || (count < BATCH_SIZE && !fails) ==> now == Matching(start.rows, where')
      ensures count > 0 && !fails ==> |now| == |gone| + count && |rows| < |old(rows)|
    {
      var batch := SelectBatch(where');
      BatchAdds(start.rows, gone, batch, where');
      count, now := |batch|, gone;
      if count > 0 && !fails {
        DeletedTwice(start, gone, batch, files, stuck);
        now := gone + batch;
        DeleteRows(batch, files, stuck);
      }
    }

    /**
      _delete_in_batches. Only matching rows go, and without a late batch or a failed commit exactly
      those a single DELETE would take; stopping early leaves whole batches done. Files follow the rows.
    */
    method DeleteInBatches(where': Where<T>, files: T -> set<string>, stuck: set<string>, c: Conditions)
      returns (total: nat, failed: bool)
      requires Stable(where')
      modifies this
      ensures var gone := old(rows).Keys - rows.Keys;
              && gone <= Matching(old(rows), where') && total == |gone|
              && Here() == Deleted(old(Here()), gone, files, stuck)
              && (gone != Matching(old(rows), where') || failed ==> CutShort(c, total, failed))
    {
      total, failed := 0, false;
      var k, done := 0, false;
      ghost var gone: set<nat> := {};
      ghost var full, all := 0, false;
      while !done
        invariant gone <= Matching(old(rows), where') && total == |gone|
        invariant Here() == Deleted(old(Here()), gone, files, stuck)
        invariant all ==> done && !failed && gone == Matching(old(rows), where')
        invariant !all ==> total == Full(full)
        invariant done && !all ==> CutShort(c, total, failed)
        invariant failed ==> done
        decreases if done then 0 else 1, |rows|
      {
        var count;
        count, gone := OneBatch(where', files, stuck, c.fails(k), old(Here()), gone);
        if count == 0 || c.fails(k) {
          done, failed, all := true, count > 0, count == 0;
        } else {
          total, full, all := total + count, full + 1, count < BATCH_SIZE;
          done := count < BATCH_SIZE || c.late(k);
        }
        k := k + 1;
      }
      assert old(rows).Keys - rows.Keys == gone;
    }
  }

  /** When no two rows share a file, every row that stays keeps the files it had. */
  lemma KeptRowsKeepTheirFiles<T>(s: Stored<T>, ids: set<nat>, files: T -> set<string>, stuck: set<string>, id: nat)
    requires forall i, j | i in s.rows && j in s.rows && i != j :: files(s.rows[i]) !! files(s.rows[j])
    requires id in Deleted(s, ids, files, stuck).rows
    ensures files(s.rows[id]) * s.disk <= Deleted(s, ids, files, stuck).disk
  {
  }

  // --- ageing by a time the device supplied ---

  /** Times in seconds; EARLIEST_PLAUSIBLE is the start of the year 2000. */
  const EARLIEST_PLAUSIBLE := 946_684_800
  const FUTURE_SLACK := 86_400

  predicate PlausibleOld(time: Option<int>, cutoff: int) {
    time.Some? && EARLIEST_PLAUSIBLE <= time.value < cutoff
  }

  predicate Implausible(time: Option<int>, now: int) {
    time.None? || time.value < EARLIEST_PLAUSIBLE || time.value > now + FUTURE_SLACK
  }

  /** How a table is aged: by which time, and by which increasing id when that is not believed. */
  datatype Clock<!T> = Clock(time: T -> Option<int>, order: T -> int, cutoff: int, now: int)

  function Boundary<T>(rows: map<nat, T>, c: Clock<T>): Option<int> {
    var orders := set id | id in rows && PlausibleOld(c.time(rows[id]), c.cutoff) :: c.order(rows[id]);
    if orders == {} then None else Some(Max(orders))
  }

  /** The WHERE clause _aged builds, with the boundary already worked out. */
  predicate Aged<T>(row: T, c: Clock<T>, boundary: Option<int>) {
    || PlausibleOld(c.time(row), c.cutoff)
    || (boundary.Some? && Implausible(c.time(row), c.now) && c.order(row) < boundary.value)
  }

  /** What _aged is for: too old by its own time, or not believed and received before a row that is too old. */
  ghost predicate PastCutoff<T>(rows: map<nat, T>, c: Clock<T>, row: T) {
    || PlausibleOld(c.time(row), c.cutoff)
    || (Implausible(c.time(row), c.now)
        && exists id | id in rows :: PlausibleOld(c.time(rows[id]), c.cutoff) && c.order(row) < c.order(rows[id]))
  }

  lemma AgedIff<T>(rows: map<nat, T>, c: Clock<T>, row: T)
    ensures Aged(row, c, Boundary(rows, c)) <==> PastCutoff(rows, c, row)
    ensures Aged(row, c, Boundary(rows, c)) <==>
              var time := c.time(row);
              || (time.Some? && 946_684_800 <= time.value < c.cutoff)
              || ((time.None? || time.value < 946_684_800 || time.value > c.now + 86_400)
                  && exists id | id in rows ::
                       && c.time(rows[id]).Some? && 946_684_800 <= c.time(rows[id]).value < c.cutoff
                       && c.order(row) < c.order(rows[id]))
  {
    var orders := set id | id in rows && PlausibleOld(c.time(rows[id]), c.cutoff) :: c.order(rows[id]);
    if id :| id in rows && PlausibleOld(c.time(rows[id]), c.cutoff) && c.order(row) < c.order(rows[id]) {
      assert c.order(rows[id]) in orders;
    }
    if orders != {} && c.order(row) < Max(orders) {
      var id :| id in rows && PlausibleOld(c.time(rows[id]), c.cutoff) && c.order(rows[id]) == Max(orders);
    }
  }

  /** A believable time at or after the cutoff is never past it. */
  lemma FreshRowsStay<T>(rows: map<nat, T>, c: Clock<T>, row: T)
    requires c.time(row).Some? && !Implausible(c.time(row), c.now) && c.time(row).value >= c.cutoff
    ensures !Aged(row, c, Boundary(rows, c))
  {
  }

  /** A later cutoff selects everything an earlier one does. */
  lemma LaterCutoffSelectsMore<T>(rows: map<nat, T>, c: Clock<T>, later: int, row: T)
    requires c.cutoff <= later && Aged(row, c, Boundary(rows, c))
    ensures Aged(row, c.(cutoff := later), Boundary(rows, c.(cutoff := later)))
  {
    AgedIff(rows, c, row);
    AgedIff(rows, c.(cutoff := later), row);
    if !PlausibleOld(c.time(row), c.cutoff) {
      var id :| id in rows && PlausibleOld(c.time(rows[id]), c.cutoff) && c.order(row) < c.order(rows[id]);
      assert PlausibleOld(c.time(rows[id]), later);
    }
  }

  function AgedWhere<T>(c: Clock<T>, boundary: Option<int>): Where<T> {
    (rows, id) => id in rows && Aged(rows[id], c, boundary)
  }

  lemma AgedIsStable<T(!new)>(c: Clock<T>, boundary: Option<int>)
    ensures Stable(AgedWhere(c, boundary))
  {
  }

  /** A purge by age: exactly the rows past the cutoff at the start go, if nothing cuts it short. */
  method PurgeByAge<T(!new)>(table: Table<T>, clock: Clock<T>, c: Conditions) returns (total: nat, failed: bool)
    modifies table
    ensures forall id | id in old(table.rows) && id !in table.rows :: PastCutoff(old(table.rows), clock, old(table.rows)[id])
    ensures forall id | id in table.rows :: id in old(table.rows) && table.rows[id] == old(table.rows)[id]
    ensures (forall k :: !c.late(k) && !c.fails(k)) ==>
              !failed && forall id | id in table.rows :: !PastCutoff(old(table.rows), clock, table.rows[id])
  {
    var boundary := Boundary(table.rows, clock);
    ghost var where' := AgedWhere(clock, boundary);
    AgedIsStable(clock, boundary);
    forall row: T ensures Aged(row, clock, boundary) <==> PastCutoff(table.rows, clock, row) {
      AgedIff(table.rows, clock, row);
    }
    ghost var before := table.rows;
    total, failed := table.DeleteInBatches(AgedWhere(clock, boundary), (row: T) => {}, {}, c);
    ghost var gone := before.Keys - table.rows.Keys;
    assert table.rows == table.Here().rows == before - gone;
    assert forall id | id in gone :: id in Matching(before, where');
  }

  /**
    Why the boundary is worked out before anything is deleted. Worked out again after some rows went,
    it would never select more, and it would lose exactly the unbelievable rows for which every later
    row that is too old is among those that went.
  */
  lemma RecomputedBoundaryLosesIff<T>(rows: map<nat, T>, gone: set<nat>, c: Clock<T>, row: T)
    ensures Aged(row, c, Boundary(rows - gone, c)) ==> Aged(row, c, Boundary(rows, c))
    ensures Aged(row, c, Boundary(rows, c)) && !Aged(row, c, Boundary(rows - gone, c)) <==>
              && !PlausibleOld(c.time(row), c.cutoff) && Implausible(c.time(row), c.now)
              && (exists id | id in rows :: PlausibleOld(c.time(rows[id]), c.cutoff) && c.order(row) < c.order(rows[id]))
              && (forall id | id in rows && PlausibleOld(c.time(rows[id]), c.cutoff) && c.order(row) < c.order(rows[id]) :: id in gone)
  {
    AgedIff(rows, c, row);
    AgedIff(rows - gone, c, row);
    assert forall id | id in rows - gone :: id in rows && (rows - gone)[id] == rows[id];
    if id :| id in rows && PlausibleOld(c.time(rows[id]), c.cutoff) && c.order(row) < c.order(rows[id]) && id !in gone {
      assert id in rows - gone;
    }
  }

  // --- mission changes ---

  /** content and item: the two kinds of thing a change can be about. */
  datatype Change = Change(mission: string, added: bool, content: Option<string>, item: Option<string>, time: Option<int>)

  /** What is still in a mission, by mission name and uid. */
  datatype Missions = Missions(contents: set<(string, string)>, items: set<(string, string)>)

  predicate SameContent(a: Change, b: Change) {
    a.added && b.added && a.mission == b.mission && a.content.Some? && a.content == b.content
  }

  predicate SameItem(a: Change, b: Change) {
    a.added && b.added && a.mission == b.mission && a.item.Some? && a.item == b.item
  }

  predicate LatestContent(rows: map<nat, Change>, id: nat) {
    id in rows && forall j | j in rows && SameContent(rows[j], rows[id]) :: j <= id
  }

  predicate LatestItem(rows: map<nat, Change>, id: nat) {
    id in rows && forall j | j in rows && SameItem(rows[j], rows[id]) :: j <= id
  }

  /** The union of the two subqueries of _purge_mission_changes. */
  predicate Kept(rows: map<nat, Change>, m: Missions, id: nat) {
    && id in rows && rows[id].added
    && ((rows[id].content.Some? && (rows[id].mission, rows[id].content.value) in m.contents && LatestContent(rows, id))
        || (rows[id].item.Some? && (rows[id].mission, rows[id].item.value) in m.items && LatestItem(rows, id)))
  }

  function ChangeWhere(c: Clock<Change>, boundary: Option<int>, m: Missions): Where<Change> {
    (rows, id) => id in rows && Aged(rows[id], c, boundary) && !Kept(rows, m, id)
  }

  /** Every item has a latest change, and that one is the kept one. */
  lemma LatestExists(rows: map<nat, Change>, id: nat)
    requires id in rows && rows[id].added
    ensures rows[id].content.Some? ==> exists j :: j in rows && SameContent(rows[j], rows[id]) && LatestContent(rows, j)
    ensures rows[id].item.Some? ==> exists j :: j in rows && SameItem(rows[j], rows[id]) && LatestItem(rows, j)
  {
    if rows[id].content.Some? {
      var ids: set<int> := set j | j in rows && SameContent(rows[j], rows[id]);
      assert id in ids;
      assert forall j | j in rows && SameContent(rows[j], rows[Max(ids)]) :: j in ids;
      assert LatestContent(rows, Max(ids));
    }
    if rows[id].item.Some? {
      var ids: set<int> := set j | j in rows && SameItem(rows[j], rows[id]);
      assert id in ids;
      assert forall j | j in rows && SameItem(rows[j], rows[Max(ids)]) :: j in ids;
      assert LatestItem(rows, Max(ids));
    }
  }

  /** Deleting changes that are not kept leaves the same ones to keep, so the batches add up to one delete. */
  lemma ChangesAreStable(c: Clock<Change>, boundary: Option<int>, m: Missions)
    ensures Stable(ChangeWhere(c, boundary, m))
  {
    var w := ChangeWhere(c, boundary, m);
    forall rows: map<nat, Change>, gone: set<nat> ensures MatchesAsBefore(w, rows, gone) {
      if gone <= Matching(rows, w) {
        forall id | id in rows - gone ensures Kept(rows - gone, m, id) <==> Kept(rows, m, id) {
          KeepsTheSame(rows, gone, m, id);
        }
        assert Matching(rows - gone, w) == Matching(rows, w) - gone;
      }
    }
  }

  lemma KeepsTheSame(rows: map<nat, Change>, gone: set<nat>, m: Missions, id: nat)
    requires forall j | j in gone :: j in rows && !Kept(rows, m, j)
    requires id in rows - gone
    ensures Kept(rows - gone, m, id) <==> Kept(rows, m, id)
  {
    if Kept(rows - gone, m, id) {
      LatestExists(rows, id);
      if rows[id].content.Some? && (rows[id].mission, rows[id].content.value) in m.contents && LatestContent(rows - gone, id) {
        var j :| j in rows && SameContent(rows[j], rows[id]) && LatestContent(rows, j);
        assert Kept(rows, m, j);
        assert j in rows - gone && j == id;
      } else {
        var j :| j in rows && SameItem(rows[j], rows[id]) && LatestItem(rows, j);
        assert Kept(rows, m, j);
        assert j in rows - gone && j == id;
      }
    }
  }

  /** Whatever batches went, an item or content still in its mission has the change that last added it. */
  lemma LatestAddStays(rows: map<nat, Change>, gone: set<nat>, c: Clock<Change>, boundary: Option<int>, m: Missions, id: nat)
    requires gone <= Matching(rows, ChangeWhere(c, boundary, m)) && id in rows && rows[id].added
    ensures rows[id].item.Some? && (rows[id].mission, rows[id].item.value) in m.items ==>
              exists j | j in rows - gone ::
                && rows[j].added && rows[j].mission == rows[id].mission && rows[j].item == rows[id].item
                && forall k | k in rows && rows[k].added && rows[k].mission == rows[id].mission && rows[k].item == rows[id].item :: k <= j
    ensures rows[id].content.Some? && (rows[id].mission, rows[id].content.value) in m.contents ==>
              exists j | j in rows - gone ::
                && rows[j].added && rows[j].mission == rows[id].mission && rows[j].content == rows[id].content
                && forall k | k in rows && rows[k].added && rows[k].mission == rows[id].mission && rows[k].content == rows[id].content :: k <= j
  {
    LatestExists(rows, id);
    if rows[id].item.Some? && (rows[id].mission, rows[id].item.value) in m.items {
      var j :| j in rows && SameItem(rows[j], rows[id]) && LatestItem(rows, j);
      assert Kept(rows, m, j);
      assert forall k | k in rows && rows[k].added && rows[k].mission == rows[id].mission && rows[k].item == rows[id].item ::
          SameItem(rows[k], rows[j]);
    }
    if rows[id].content.Some? && (rows[id].mission, rows[id].content.value) in m.contents {
      var j :| j in rows && SameContent(rows[j], rows[id]) && LatestContent(rows, j);
      assert Kept(rows, m, j);
      assert forall k | k in rows && rows[k].added && rows[k].mission == rows[id].mission && rows[k].content == rows[id].content ::
          SameContent(rows[k], rows[j]);
    }
  }

  /** Nothing else is kept: a change that is not the last addition of something still in its mission goes once it is past the cutoff. */
  lemma OthersGo(rows: map<nat, Change>, c: Clock<Change>, m: Missions, id: nat)
    requires id in rows && Aged(rows[id], c, Boundary(rows, c))
    requires rows[id].added && rows[id].item.Some? && (rows[id].mission, rows[id].item.value) in m.items ==>
               exists k | k in rows ::
                 k > id && rows[k].added && rows[k].mission == rows[id].mission && rows[k].item == rows[id].item
    requires rows[id].added && rows[id].content.Some? && (rows[id].mission, rows[id].content.value) in m.contents ==>
               exists k | k in rows ::
                 k > id && rows[k].added && rows[k].mission == rows[id].mission && rows[k].content == rows[id].content
    ensures id in Matching(rows, ChangeWhere(c, Boundary(rows, c), m))
  {
    if rows[id].added && rows[id].item.Some? && (rows[id].mission, rows[id].item.value) in m.items {
      var k :| k in rows && k > id && rows[k].added && rows[k].mission == rows[id].mission && rows[k].item == rows[id].item;
      assert SameItem(rows[k], rows[id]);
    }
    if rows[id].added && rows[id].content.Some? && (rows[id].mission, rows[id].content.value) in m.contents {
      var k :| k in rows && k > id && rows[k].added && rows[k].mission == rows[id].mission && rows[k].content == rows[id].content;
      assert SameContent(rows[k], rows[id]);
    }
  }

  /** _purge_mission_changes: nothing kept goes, and if nothing cuts it short everything else past the cutoff does. */
  method PurgeMissionChanges(table: Table<Change>, clock: Clock<Change>, m: Missions, c: Conditions)
    returns (total: nat, failed: bool)
    modifies table
    ensures forall id | id in table.rows :: id in old(table.rows) && table.rows[id] == old(table.rows)[id]
    ensures forall id | id in old(table.rows) && id !in table.rows ::
              PastCutoff(old(table.rows), clock, old(table.rows)[id]) && !Kept(old(table.rows), m, id)
    ensures (forall k :: !c.late(k) && !c.fails(k)) ==>
              !failed && forall id | id in table.rows :: !PastCutoff(old(table.rows), clock, table.rows[id]) || Kept(old(table.rows), m, id)
  {
    var boundary := Boundary(table.rows, clock);
    ghost var where' := ChangeWhere(clock, boundary, m);
    ChangesAreStable(clock, boundary, m);
    forall row: Change ensures Aged(row, clock, boundary) <==> PastCutoff(table.rows, clock, row) {
      AgedIff(table.rows, clock, row);
    }
    ghost var before := table.rows;
    total, failed := table.DeleteInBatches(ChangeWhere(clock, boundary, m), (row: Change) => {}, {}, c);
    ghost var gone := before.Keys - table.rows.Keys;
    assert table.rows == table.Here().rows == before - gone;
    assert forall id | id in gone :: id in Matching(before, where');
  }
}
