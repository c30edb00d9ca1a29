/**
  The purging job over the runs of the offline chat queue (raven/retention.py): it reads the retention
  once and then deletes in batches by that cutoff, while the retention may be set again at any time.
*/
module OfflinePurges {
  import opened Wrappers
  import opened OfflineChat
  import opened OfflineRuns

  /** What a purge holds is the setting that was in force when it started. */
  ghost predicate PurgeSound(s: State, purge: Purging) {
    purge.read < |s.keeps| && s.keeps[purge.read] == Some(purge.keep)
  }

  /** How much longer than the retention the purge read a row has been held. */
  function Overdue(row: Row, purge: Purging, at: int): int {
    at - row.createdAt - purge.keep
  }

  /** This setting of the retention exceeds the one the purge read by so much, or holds rows for ever. */
  predicate Exceeds(keep: Option<int>, purge: Purging, excess: int) {
    keep.Some? ==> keep.value - purge.keep >= excess
  }

  /** The retention was set again since the purge read it, and now exceeds what it read by so much. */
  ghost predicate RaisedSince(s: State, inForce: nat, purge: Purging, excess: int) {
    purge.read < inForce < |s.keeps| && Exceeds(s.keeps[inForce], purge, excess)
  }

  /** A removed row was revoked undelivered, or was past the cutoff of a purge that read its retention by then. */
  ghost predicate RemovalSound(s: State, removal: Removal) {
    match removal
    case Revoked(row) => row.deliveredAt.None?
    case Expired(row, purge, at, inForce) =>
      && PurgeSound(s, purge) && purge.read <= inForce < |s.keeps|
      && row.createdAt < purge.started - purge.keep
  }

  ghost predicate PurgesSound(s: State) {
    && s.keeps != []
    && (forall pid | pid in s.purges :: pid < s.nextPid && PurgeSound(s, s.purges[pid]))
    && (forall id | id in s.gone :: RemovalSound(s, s.gone[id]) && s.gone[id].row.id == id)
  }

  lemma SettingsGrow(s: State, step: Step)
    requires Enabled(s, step)
    ensures var t := After(s, step);
            t.keeps == s.keeps + if step.Retain? then [step.keep] else []
    ensures After(s, step).nextPid >= s.nextPid
    ensures forall pid | pid in s.purges && pid != s.nextPid ::
              pid in After(s, step).purges && After(s, step).purges[pid] == s.purges[pid]
  {
  }

  lemma PurgesStaySound(s: State, step: Step)
    requires TableSound(s) && PurgesSound(s) && Enabled(s, step)
    ensures PurgesSound(After(s, step))
  {
    var t := After(s, step);
    SettingsGrow(s, step);
    forall id | id in t.gone ensures RemovalSound(t, t.gone[id]) && t.gone[id].row.id == id {
      if id in s.gone && t.gone[id] == s.gone[id] {
        assert RemovalSound(s, s.gone[id]);
      }
    }
  }

  lemma {:induction false} RunKeepsPurges(s: State, steps: seq<Step>)
    requires TableSound(s) && PurgesSound(s) && IsRun(s, steps)
    ensures TableSound(Outcome(s, steps)) && PurgesSound(Outcome(s, steps))
    decreases |steps|
  {
    if steps != [] {
      TableStaysSound(s, steps[0]);
      PurgesStaySound(s, steps[0]);
      RunKeepsPurges(After(s, steps[0]), steps[1..]);
    }
  }

  /** Of an undelivered row past the cutoff of a purge: when pending_messages would still return it. */
  lemma PendingIfRaised(s: State, row: Row, purge: Purging, at: int, inForce: nat)
    requires PurgeSound(s, purge) && purge.read <= inForce < |s.keeps|
    requires row.deliveredAt.None? && row.createdAt < purge.started - purge.keep
    ensures IsPending(row, row.recipient, at, s.keeps[inForce]) <==> Exceeds(s.keeps[inForce], purge, Overdue(row, purge, at))
    ensures purge.started <= at ==>
              (IsPending(row, row.recipient, at, s.keeps[inForce]) <==> RaisedSince(s, inForce, purge, Overdue(row, purge, at)))
  {
  }

  // --- the results ---

  /**
    In every run a batch takes a row pending_messages would still return at that moment exactly if the
    retention in force exceeds the one the purge read by as much as the row was overdue by the latter. If the
    clock was not set back meanwhile, it must have been raised so far, or lifted, since the purge read it.
  */
  lemma BatchTakesPendingIff(members: set<Membership>, keep: Option<int>, steps: seq<Step>, pid: nat, at: int, ids: set<nat>, id: nat)
    requires IsRun(Start(members, keep), steps) && id in ids
    requires Enabled(Outcome(Start(members, keep), steps), PurgeBatch(pid, at, ids))
    ensures var s := Outcome(Start(members, keep), steps);
            var row, purge, inForce := s.rows[id], s.purges[pid], |s.keeps| - 1;
            row.deliveredAt.None? ==>
              && (IsPending(row, row.recipient, at, Retention(s)) <==> Exceeds(Retention(s), purge, Overdue(row, purge, at)))
              && (purge.started <= at ==>
                    (IsPending(row, row.recipient, at, Retention(s)) <==> RaisedSince(s, inForce, purge, Overdue(row, purge, at))))
  {
    RunKeepsPurges(Start(members, keep), steps);
    var s := Outcome(Start(members, keep), steps);
    if s.rows[id].deliveredAt.None? {
      PendingIfRaised(s, s.rows[id], s.purges[pid], at, |s.keeps| - 1);
    }
  }

  /**
    No row disappears: it is in the table, was revoked undelivered, or was past the cutoff of a purge; and
    then it was still pending exactly if the retention had been raised far enough, or lifted, since that purge read it.
  */
  lemma NoRowIsLost(members: set<Membership>, keep: Option<int>, steps: seq<Step>, id: nat)
    requires IsRun(Start(members, keep), steps) && id < Outcome(Start(members, keep), steps).nextId
    ensures var s := Outcome(Start(members, keep), steps);
            id !in s.rows ==> id in s.gone && var removal := s.gone[id];
              && removal.row.id == id && (removal.Revoked? ==> removal.row.deliveredAt.None?)
              && (removal.Expired? ==>
                    var row, purge, at := removal.row, removal.purge, removal.at;
                    && PurgeSound(s, purge) && removal.inForce < |s.keeps| && row.createdAt < purge.started - purge.keep
                    && (row.deliveredAt.None? && purge.started <= at ==>
                          (IsPending(row, row.recipient, at, s.keeps[removal.inForce])
                           <==> RaisedSince(s, removal.inForce, purge, Overdue(row, purge, at)))))
  {
    RunKeepsPurges(Start(members, keep), steps);
    var s := Outcome(Start(members, keep), steps);
    if id !in s.rows && s.gone[id].Expired? && s.gone[id].row.deliveredAt.None? {
      assert RemovalSound(s, s.gone[id]);
      PendingIfRaised(s, s.gone[id].row, s.gone[id].purge, s.gone[id].at, s.gone[id].inForce);
    }
  }

  // --- what a caller can see to ---

  /** None of the steps sets the retention above this, or lifts it. */
  predicate NeverAbove(steps: seq<Step>, keep: int) {
    forall step | step in steps :: step.Retain? ==> step.keep.Some? && step.keep.value <= keep
  }

  lemma {:induction false} RunStaysBelow(s: State, steps: seq<Step>, pid: nat, keep: int)
    requires IsRun(s, steps) && NeverAbove(steps, keep) && pid in s.purges && pid < s.nextPid
    requires s.keeps != [] && Retention(s).Some? && Retention(s).value <= keep
    ensures var t := Outcome(s, steps);
            && pid in t.purges && t.purges[pid] == s.purges[pid]
            && t.keeps != [] && Retention(t).Some? && Retention(t).value <= keep
    decreases |steps|
  {
    if steps != [] {
      assert steps[0] in steps && forall step | step in steps[1..] :: step in steps;
      SettingsGrow(s, steps[0]);
      RunStaysBelow(After(s, steps[0]), steps[1..], pid, keep);
    }
  }

  /**
    If from its start to one of its batches nobody sets the retention above what the purge read, or lifts it,
    and the clock is not set back, the batch takes only rows that pending_messages refuses at that moment.
  */
  lemma OnlyRefusedRowsGo(members: set<Membership>, keep: Option<int>, before: seq<Step>, now: int, steps: seq<Step>, s: State,
                          at: int, ids: set<nat>)
    requires IsRun(Start(members, keep), before) && s == Outcome(Start(members, keep), before)
    requires Enabled(s, StartPurge(now)) && IsRun(After(s, StartPurge(now)), steps) && NeverAbove(steps, Retention(s).value)
    requires Enabled(Outcome(After(s, StartPurge(now)), steps), PurgeBatch(s.nextPid, at, ids)) && now <= at
    ensures var t := Outcome(After(s, StartPurge(now)), steps);
            forall id | id in ids :: !IsPending(t.rows[id], t.rows[id].recipient, at, Retention(t))
  {
    RunStaysBelow(After(s, StartPurge(now)), steps, s.nextPid, Retention(s).value);
  }

  // --- the retention raised between a purge's start and its batch ---

  const KEPT := Row(0, "PHONE", None, None, "chat", "<event/>", 5, None)

  function RaisedMeanwhile(): seq<Step> {
    [Queue(KEPT)] + [StartPurge(20)] + [Retain(Some(100))]
  }

  lemma RaisedRun()
    ensures IsRun(Start({}, Some(10)), RaisedMeanwhile())
    ensures Outcome(Start({}, Some(10)), RaisedMeanwhile())
            == State(map[0 := KEPT], 1, [Some(10), Some(100)], [{}], map[], 0, map[0 := Purging(20, 10, 0)], 1, {}, {}, [], map[])
  {
    var s := Start({}, Some(10));
    OneStep(s, Queue(KEPT));
    RunOneMore(s, [Queue(KEPT)], StartPurge(20));
    RunOneMore(s, [Queue(KEPT)] + [StartPurge(20)], Retain(Some(100)));
    assert [Some(10)] + [Some(100)] == [Some(10), Some(100)];
  }

  /** A purge starts, the retention is raised, and the purge's next batch deletes a row that is pending again. */
  lemma RaiseLosesPending()
    ensures var run := RaisedMeanwhile() + [PurgeBatch(0, 21, {0})];
            && IsRun(Start({}, Some(10)), RaisedMeanwhile()) && IsRun(Start({}, Some(10)), run)
            && var s, t := Outcome(Start({}, Some(10)), RaisedMeanwhile()), Outcome(Start({}, Some(10)), run);
               && s.keeps != [] && 0 in s.rows && IsPending(s.rows[0], "PHONE", 21, Retention(s))
               && 0 !in t.rows && t.keeps == s.keeps
  {
    RaisedRun();
    RunOneMore(Start({}, Some(10)), RaisedMeanwhile(), PurgeBatch(0, 21, {0}));
  }
}
