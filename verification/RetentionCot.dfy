/**
  Purging CoT history (_purge_cot in raven/retention.py) against the foreign keys of the tables
  that refer to points and cot.
*/
module RetentionCot {
  import opened Wrappers
  import opened Sets
  import Retention

  datatype Kind = Marker | Alert | CasEvac | GeoChat | RBLine | CITrap | VideoStream

  datatype Point = Point(time: Option<int>, cot: Option<nat>)
  datatype CoT = CoT(time: Option<int>, uid: Option<string>, mission: Option<string>)

  /** A row of one of the tables with a foreign key to points or cot. */
  datatype Referrer = Referrer(kind: Kind, point: Option<nat>, cot: Option<nat>)

  /** missionUids: the uids that belong to a mission. */
  datatype Database = Database(points: map<nat, Point>, cots: map<nat, CoT>, referrers: map<nat, Referrer>,
                               missionUids: set<string>)

  /** Which columns a table has. */
  predicate HasPoint(kind: Kind) { !kind.VideoStream? }
  predicate HasCot(kind: Kind) { !kind.CITrap? }

  /** Foreign keys without ON DELETE CASCADE: the database refuses to delete what they refer to. */
  predicate Restricts(kind: Kind) { kind.GeoChat? || kind.VideoStream? }

  /** Every foreign key refers to a row. */
  ghost predicate Resolves(db: Database) {
    && (forall p | p in db.points && db.points[p].cot.Some? :: db.points[p].cot.value in db.cots)
    && (forall r | r in db.referrers ::
          && (db.referrers[r].point.Some? ==> HasPoint(db.referrers[r].kind) && db.referrers[r].point.value in db.points)
          && (db.referrers[r].cot.Some? ==> HasCot(db.referrers[r].kind) && db.referrers[r].cot.value in db.cots))
  }

  // --- the database's DELETE ---

  /** The rows a DELETE reaches through the cascades: points of deleted CoTs, and referrers of either. */
  function HangingPoints(db: Database, cots: set<nat>): set<nat> {
    set p | p in db.points && db.points[p].cot.Some? && db.points[p].cot.value in cots
  }

  function HangingReferrers(db: Database, points: set<nat>, cots: set<nat>): set<nat> {
    set r | r in db.referrers && (
      (db.referrers[r].point.Some? && db.referrers[r].point.value in points)
      || (db.referrers[r].cot.Some? && db.referrers[r].cot.value in cots))
  }

  /** DELETE of these points and CoTs with everything the cascades reach; refused if a restricting key refers to any of it. */
  function Delete(db: Database, points: set<nat>, cots: set<nat>): Result<Database, string> {
    var reached := points + HangingPoints(db, cots);
    var referrers := HangingReferrers(db, reached, cots);
    if exists r | r in referrers :: Restricts(db.referrers[r].kind) then Failure("violates foreign key constraint")
    else Success(db.(points := db.points - reached, cots := db.cots - cots, referrers := db.referrers - referrers))
  }

  // --- _purge_cot ---

  function ReferencedPoints(db: Database): set<nat> {
    set r | r in db.referrers && db.referrers[r].kind in {Marker, Alert, CasEvac, GeoChat, RBLine, CITrap}
            && db.referrers[r].point.Some? :: db.referrers[r].point.value
  }

  function ReferencedCots(db: Database): set<nat> {
    (set r | r in db.referrers && db.referrers[r].kind in {Marker, Alert, CasEvac, GeoChat, RBLine, VideoStream}
             && db.referrers[r].cot.Some? :: db.referrers[r].cot.value)
    + (set p | p in db.points && db.points[p].cot.Some? && p in ReferencedPoints(db) :: db.points[p].cot.value)
  }

  predicate IsMissionContent(db: Database, cot: CoT) {
    cot.mission.Some? || (cot.uid.Some? && cot.uid.value in db.missionUids)
  }

  /** The two ages, with the boundaries worked out before either table is touched by its own deletes. */
  datatype Ages = Ages(cutoff: int, now: int, points: Option<int>, cots: Option<int>)

  /** A row's time and its id, by which it is aged when the time is not believed. */
  type Stamp = (Option<int>, nat)

  function ClockOf(cutoff: int, now: int): Retention.Clock<Stamp> {
    Retention.Clock((x: Stamp) => x.0, (x: Stamp) => x.1, cutoff, now)
  }

  predicate Old(time: Option<int>, id: nat, a: Ages, boundary: Option<int>) {
    Retention.Aged((time, id), ClockOf(a.cutoff, a.now), boundary)
  }

  function PointStamps(db: Database): map<nat, Stamp> {
    map id | id in db.points :: (db.points[id].time, id)
  }

  function CotStamps(db: Database): map<nat, Stamp> {
    map id | id in db.cots :: (db.cots[id].time, id)
  }

  /** The ages _purge_cot works with: each boundary is that of its whole table. */
  function AgesOf(db: Database, cutoff: int, now: int): Ages {
    Ages(cutoff, now, Retention.Boundary(PointStamps(db), ClockOf(cutoff, now)), Retention.Boundary(CotStamps(db), ClockOf(cutoff, now)))
  }

  predicate PointWhere(db: Database, a: Ages, id: nat) {
    id in db.points && Old(db.points[id].time, id, a, a.points) && id !in ReferencedPoints(db)
  }

  predicate CotWhere(db: Database, a: Ages, id: nat) {
    && id in db.cots && Old(db.cots[id].time, id, a, a.cots)
    && !IsMissionContent(db, db.cots[id]) && id !in ReferencedCots(db)
  }

  /**
    A CoT is selected exactly if it is aged, belongs to no mission and nothing of the kinds that show it still
    refers to it, directly or by a point of its; a point exactly if it is aged and nothing refers to it.
  */
  lemma SelectsIff(db: Database, a: Ages, id: nat)
    ensures CotWhere(db, a, id) <==>
              && id in db.cots && Retention.Aged((db.cots[id].time, id), ClockOf(a.cutoff, a.now), a.cots)
              && db.cots[id].mission.None? && !(db.cots[id].uid.Some? && db.cots[id].uid.value in db.missionUids)
              && (forall r | r in db.referrers && db.referrers[r].kind in {Marker, Alert, CasEvac, GeoChat, RBLine, VideoStream} ::
                    db.referrers[r].cot != Some(id))
              && (forall r | r in db.referrers && db.referrers[r].kind in {Marker, Alert, CasEvac, GeoChat, RBLine, CITrap}
                             && db.referrers[r].point.Some? && db.referrers[r].point.value in db.points ::
                    db.points[db.referrers[r].point.value].cot != Some(id))
    ensures PointWhere(db, a, id) <==>
              && id in db.points && Retention.Aged((db.points[id].time, id), ClockOf(a.cutoff, a.now), a.points)
              && forall r | r in db.referrers && db.referrers[r].kind in {Marker, Alert, CasEvac, GeoChat, RBLine, CITrap} ::
                   db.referrers[r].point != Some(id)
  {
  }

  predicate Selects(db: Database, a: Ages, points: bool, id: nat) {
    if points then PointWhere(db, a, id) else CotWhere(db, a, id)
  }

  ghost predicate NoneLeft(db: Database, a: Ages, points: bool) {
    forall id :: !Selects(db, a, points, id)
  }

  datatype Batch = Points(ids: set<nat>) | CoTs(ids: set<nat>)

  ghost predicate Selected(db: Database, a: Ages, batch: Batch) {
    forall id | id in batch.ids :: Selects(db, a, batch.Points?, id)
  }

  function AfterBatch(db: Database, batch: Batch): Result<Database, string> {
    if batch.Points? then Delete(db, batch.ids, {}) else Delete(db, {}, batch.ids)
  }

  /** One batch after another, each selected from what the last one left; where it stops does not matter. */
  ghost predicate IsPurge(db: Database, a: Ages, batches: seq<Batch>)
    decreases |batches|
  {
    batches == []
    || (Selected(db, a, batches[0])
        && (AfterBatch(db, batches[0]).Success? ==> IsPurge(AfterBatch(db, batches[0]).value, a, batches[1..])))
  }

  ghost function Purged(db: Database, batches: seq<Batch>): Result<Database, string>
    decreases |batches|
  {
    if batches == [] then Success(db)
    else if AfterBatch(db, batches[0]).Failure? then AfterBatch(db, batches[0])
    else Purged(AfterBatch(db, batches[0]).value, batches[1..])
  }

  /** Between two states of a purge: what must not have changed, and what a removed row was. */
  ghost predicate Safe(db: Database, a: Ages, t: Database) {
    && Resolves(t) && t.referrers == db.referrers && t.missionUids == db.missionUids
    && ReferencedPoints(db) <= t.points.Keys && ReferencedCots(t) == ReferencedCots(db)
    && (forall p | p in t.points :: p in db.points && t.points[p] == db.points[p])
    && (forall c | c in t.cots :: c in db.cots && t.cots[c] == db.cots[c])
    && (forall c | c in db.cots && c !in t.cots :: CotWhere(db, a, c))
    && (forall p | p in db.points && p !in t.points ::
          PointWhere(db, a, p) || (db.points[p].cot.Some? && db.points[p].cot.value !in t.cots))
  }

  /** No cascade of a batch reaches a referrer, so none is refused and nothing kept loses what it refers to. */
  lemma NoReferrerIsReached(db: Database, a: Ages, batch: Batch)
    requires Resolves(db) && Selected(db, a, batch)
    ensures var points := if batch.Points? then batch.ids else HangingPoints(db, batch.ids);
            HangingReferrers(db, points, if batch.Points? then {} else batch.ids) == {}
  {
  }

  /** A batch goes through, and takes its rows and the points hanging on its CoTs. */
  lemma BatchGoesThrough(db: Database, a: Ages, batch: Batch)
    requires Resolves(db) && Selected(db, a, batch)
    ensures AfterBatch(db, batch)
         == Success(if batch.Points? then db.(points := db.points - batch.ids)
                    else db.(points := db.points - HangingPoints(db, batch.ids), cots := db.cots - batch.ids))
  {
    NoReferrerIsReached(db, a, batch);
    assert HangingPoints(db, {}) == {};
    assert batch.ids + {} == batch.ids && {} + HangingPoints(db, batch.ids) == HangingPoints(db, batch.ids);
    assert db.referrers - {} == db.referrers && db.cots - {} == db.cots;
  }

  lemma BatchIsSafe(db: Database, a: Ages, batch: Batch)
    requires Resolves(db) && Selected(db, a, batch)
    ensures AfterBatch(db, batch).Success? && Safe(db, a, AfterBatch(db, batch).value)
  {
    BatchGoesThrough(db, a, batch);
    if batch.Points? {
      PointsBatchIsSafe(db, a, batch.ids, AfterBatch(db, batch).value);
    } else {
      CotsBatchIsSafe(db, a, batch.ids, AfterBatch(db, batch).value);
    }
  }

  lemma PointsBatchIsSafe(db: Database, a: Ages, ids: set<nat>, t: Database)
    requires Resolves(db) && (forall id | id in ids :: PointWhere(db, a, id)) && t == db.(points := db.points - ids)
    ensures Safe(db, a, t)
  {
    assert ReferencedPoints(t) == ReferencedPoints(db);
  }

  lemma CotsBatchIsSafe(db: Database, a: Ages, ids: set<nat>, t: Database)
    requires Resolves(db) && (forall id | id in ids :: CotWhere(db, a, id))
    requires t == db.(points := db.points - HangingPoints(db, ids), cots := db.cots - ids)
    ensures Safe(db, a, t)
  {
    assert ReferencedPoints(t) == ReferencedPoints(db);
  }

  lemma SafeChains(db: Database, a: Ages, t: Database, u: Database)
    requires Safe(db, a, t) && Safe(t, a, u)
    ensures Safe(db, a, u)
  {
  }

  /**
    Whatever batches a purge gets through before it stops, no marker, alert, CasEvac, chat message,
    R&B line, CITrap or video stream goes or loses the point or CoT it refers to, no foreign key is
    violated, and only aged CoTs that are neither mission content nor in use are removed, with aged
    unused points and the points of those CoTs.
  */
  lemma {:induction false} PurgeIsSafe(db: Database, a: Ages, batches: seq<Batch>)
    requires Resolves(db) && IsPurge(db, a, batches)
    ensures Purged(db, batches).Success? && Safe(db, a, Purged(db, batches).value)
    decreases |batches|
  {
    if batches == [] {
      assert forall p | p in ReferencedPoints(db) :: p in db.points;
    } else {
      BatchIsSafe(db, a, batches[0]);
      var t := AfterBatch(db, batches[0]).value;
      PurgeIsSafe(t, a, batches[1..]);
      SafeChains(db, a, t, Purged(t, batches[1..]).value);
    }
  }

  /** No mission-content CoT is ever removed. */
  lemma MissionContentStays(db: Database, a: Ages, batches: seq<Batch>, c: nat)
    requires Resolves(db) && IsPurge(db, a, batches)
    requires c in db.cots && (db.cots[c].mission.Some? || (db.cots[c].uid.Some? && db.cots[c].uid.value in db.missionUids))
    ensures Purged(db, batches).Success? && c in Purged(db, batches).value.cots
  {
    PurgeIsSafe(db, a, batches);
  }

  /** Nothing is left for either clause to select. */
  ghost predicate Finished(db: Database, a: Ages) {
    NoneLeft(db, a, true) && NoneLeft(db, a, false)
  }

  /** Exactly what the two clauses selected at the start is gone, and the points of those CoTs. */
  ghost predicate ExactlyPurged(db: Database, a: Ages, t: Database) {
    && (forall c | c in db.cots :: c in t.cots <==> !CotWhere(db, a, c))
    && (forall p | p in db.points :: p in t.points <==>
          !PointWhere(db, a, p) && !(db.points[p].cot.Some? && CotWhere(db, a, db.points[p].cot.value)))
  }

  lemma FinishedIsExact(db: Database, a: Ages, t: Database)
    requires Resolves(db) && Safe(db, a, t) && Finished(t, a)
    ensures ExactlyPurged(db, a, t)
  {
    assert ReferencedPoints(t) == ReferencedPoints(db);
    forall c | c in t.cots ensures !CotWhere(db, a, c) {
      assert !Selects(t, a, false, c);
    }
    forall p | p in t.points
      ensures !PointWhere(db, a, p) && !(db.points[p].cot.Some? && CotWhere(db, a, db.points[p].cot.value))
    {
      assert !Selects(t, a, true, p);
      if t.points[p].cot.Some? {
        assert t.points[p].cot.value in t.cots;
      }
    }
    forall p | p in db.points && p !in t.points
      ensures PointWhere(db, a, p) || (db.points[p].cot.Some? && CotWhere(db, a, db.points[p].cot.value))
    {
      if !PointWhere(db, a, p) {
        assert db.points[p].cot.value in db.cots;
      }
    }
  }

  /** A purge that leaves nothing to select has removed exactly what a single pair of deletes would. */
  lemma FinishedPurgeIsExact(db: Database, a: Ages, batches: seq<Batch>)
    requires Resolves(db) && IsPurge(db, a, batches)
    requires Purged(db, batches).Success? ==> Finished(Purged(db, batches).value, a)
    ensures Purged(db, batches).Success? && ExactlyPurged(db, a, Purged(db, batches).value)
  {
    PurgeIsSafe(db, a, batches);
    FinishedIsExact(db, a, Purged(db, batches).value);
  }

  // --- the two loops ---

  class Store {
    var db: Database

    constructor (db: Database)
      ensures this.db == db
    {
      this.db := db;
    }

    /** SELECT ... LIMIT: any of the selected ids, as many as the limit lets through. */
    method SelectBatch(a: Ages, points: bool) returns (batch: Batch)
      ensures batch.Points? == points && Selected(db, a, batch)
      ensures |batch.ids| < Retention.BATCH_SIZE ==> forall id | Selects(db, a, points, id) :: id in batch.ids
    {
      var ids := set id | id in (if points then db.points.Keys else db.cots.Keys) && Selects(db, a, points, id);
      var chosen := ids;
      if |ids| > Retention.BATCH_SIZE {
        SubsetOfSize(ids, Retention.BATCH_SIZE);
        chosen :| chosen <= ids && |chosen| == Retention.BATCH_SIZE;
      }
      batch := if points then Points(chosen) else CoTs(chosen);
    }

    /** One call of _delete_in_batches; the total counts what it selected, not what the cascades took along. */
    method DeleteBatches(a: Ages, points: bool, late: nat -> bool) returns (total: nat)
      requires Resolves(db)
      modifies this
      ensures Safe(old(db), a, db)
      ensures points ==> db.cots == old(db).cots
      ensures (forall k :: !late(k)) ==> NoneLeft(db, a, points)
    {
      total := 0;
      var k, done := 0, false;
      SafeAtFirst(db, a);
      while !done
        invariant Safe(old(db), a, db)
        invariant points ==> db.cots == old(db).cots
        invariant done ==> NoneLeft(db, a, points) || exists j :: late(j)
        decreases if done then 0 else 1, |db.points| + |db.cots|
      {
        var batch := SelectBatch(a, points);
        if batch.ids == {} {
          done := true;
        } else {
          OneBatch(old(db), db, a, batch);
          db := AfterBatch(db, batch).value;
          total := total + |batch.ids|;
          done := |batch.ids| < Retention.BATCH_SIZE || late(k);
        }
        k := k + 1;
      }
    }

    /** _purge_cot: positions first, then CoTs, each aged by its own table. */
    method PurgeCot(cutoff: int, now: int, latePoints: nat -> bool, lateCots: nat -> bool) returns (deleted: nat)
      requires Resolves(db)
      modifies this
      ensures Safe(old(db), AgesOf(old(db), cutoff, now), db)
      ensures (forall k :: !latePoints(k) && !lateCots(k)) ==> ExactlyPurged(old(db), AgesOf(old(db), cutoff, now), db)
    {
      var pointBoundary := Retention.Boundary(PointStamps(db), ClockOf(cutoff, now));
      ghost var a := AgesOf(db, cutoff, now);
      deleted := DeleteBatches(Ages(cutoff, now, pointBoundary, Retention.Boundary(CotStamps(db), ClockOf(cutoff, now))), true, latePoints);
      ghost var mid := db;
      assert CotStamps(db) == CotStamps(old(db));
      var more := DeleteBatches(Ages(cutoff, now, pointBoundary, Retention.Boundary(CotStamps(db), ClockOf(cutoff, now))), false, lateCots);
      deleted := deleted + more;
      SafeChains(old(db), a, mid, db);
      NothingNewToSelect(mid, a, db);
      if forall k :: !latePoints(k) && !lateCots(k) {
        FinishedIsExact(old(db), a, db);
      }
    }
  }

  /** One more batch: safe, fewer rows, and if it took all that was selected nothing is left. */
  lemma OneBatch(start: Database, db: Database, a: Ages, batch: Batch)
    requires Safe(start, a, db) && Selected(db, a, batch) && batch.ids != {}
    ensures AfterBatch(db, batch).Success?
    ensures var t := AfterBatch(db, batch).value;
            && Safe(start, a, t) && |t.points| + |t.cots| < |db.points| + |db.cots| && (batch.Points? ==> t.cots == db.cots)
            && ((forall id | Selects(db, a, batch.Points?, id) :: id in batch.ids) ==> NoneLeft(t, a, batch.Points?))
  {
    BatchIsSafe(db, a, batch);
    var t := AfterBatch(db, batch).value;
    ChosenGo(db, batch);
    SafeChains(start, a, db, t);
    NothingNewToSelect(db, a, t);
    SubsetSize(t.points.Keys, db.points.Keys);
    SubsetSize(t.cots.Keys, db.cots.Keys);
    assert AnyOf(batch.ids) in batch.ids;
  }

  lemma ChosenGo(db: Database, batch: Batch)
    requires AfterBatch(db, batch).Success?
    ensures var t := AfterBatch(db, batch).value;
            if batch.Points? then t.points.Keys !! batch.ids && t.cots == db.cots else t.cots.Keys !! batch.ids
  {
  }

  lemma SafeAtFirst(db: Database, a: Ages)
    requires Resolves(db)
    ensures Safe(db, a, db)
  {
    assert forall p | p in ReferencedPoints(db) :: p in db.points;
  }

  /** Deleting never makes a clause select a row it did not select before. */
  lemma NothingNewToSelect(db: Database, a: Ages, t: Database)
    requires Safe(db, a, t)
    ensures forall points, id :: Selects(t, a, points, id) ==> Selects(db, a, points, id)
  {
    assert ReferencedPoints(t) == ReferencedPoints(db);
  }

}
