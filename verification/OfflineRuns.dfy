/**
  Runs of the offline chat queue (raven/offline_chat.py): queueing, receives, several connections
  delivering at once, the settling and purging jobs and crashes, one database step at a time.
*/
module OfflineRuns {
  import opened Wrappers
  import opened OfflineChat

  /**
    Where a connection stands in deliver_pending. todo is the list it fetched and has not looked
    at yet; mark is how many stamps the log held when it fetched.
  */
  datatype Phase =
    | Opened
    | Trimmed
    | Sending(todo: seq<Row>, mark: nat)
    | Writing(row: Row, todo: seq<Row>, mark: nat)

  /** since is the index of the memberships in force when the connection opened. */
  datatype Session = Session(uid: string, user: Option<int>, since: nat, phase: Phase, cache: map<seq<int>, bool>)

  /** Bytes of a row written to a connection; till is the index of the memberships in force then. */
  datatype Write = Write(row: nat, uid: string, user: Option<int>, since: nat, till: nat, mark: nat)

  /** One committed UPDATE of delivered_at; who is None for the settling job. */
  datatype Stamp = Stamp(rows: set<nat>, who: Option<nat>)

  /** A purge under way: the time it started with, and the retention it read, which was the read-th setting. */
  datatype Purging = Purging(started: int, keep: int, read: nat)

  /** Expired: deleted at a time by a batch of a purge, with the inForce-th setting of the retention in force. */
  datatype Removal = Revoked(row: Row) | Expired(row: Row, purge: Purging, at: int, inForce: nat)

  /**
    rows and the last elements of keeps and members are the database; sessions are the handler
    processes and purges the purging jobs. heard (every receive recorded), writes, log and gone are
    the history.
  */
  datatype State = State(
    rows: map<nat, Row>, nextId: nat, keeps: seq<Option<int>>, members: seq<set<Membership>>,
    sessions: map<nat, Session>, nextSid: nat, purges: map<nat, Purging>, nextPid: nat,
    heard: set<(string, int)>, writes: set<Write>, log: seq<Stamp>, gone: map<nat, Removal>)

  datatype Step =
    | Queue(row: Row)
    | Hear(uid: string, at: int)
    | Regroup(members: set<Membership>)
    | Retain(keep: Option<int>)
    | Open(uid: string, user: Option<int>)
    | Trim(sid: nat, rx: Option<int>, at: int)
    | Fetch(sid: nat, now: int, setting: nat, todo: seq<Row>)
    | Skip(sid: nat)
    | Send(sid: nat)
    | Commit(sid: nat, at: int)
    | End(sid: nat)
    | Settle(uid: string, last: int, at: int)
    | Revoke(uids: set<string>)
    | StartPurge(now: int)
    | PurgeBatch(pid: nat, at: int, ids: set<nat>)

  // --- the parts of a step ---

  predicate Cached(session: Session, row: Row) {
    row.groups.Some? && row.groups.value in session.cache
  }

  /** _entitled: the owner first, then the group check, from the cache if it is there. */
  predicate Allowed(session: Session, row: Row, ms: set<Membership>) {
    && (row.owner.Some? ==> row.owner == session.user)
    && (row.groups.Some? ==>
          if Cached(session, row) then session.cache[row.groups.value]
          else UserReads(ms, session.user, row.groups.value))
  }

  function Remember(session: Session, row: Row, ms: set<Membership>): Session {
    if row.groups.None? || Cached(session, row) || (row.owner.Some? && row.owner != session.user) then session
    else session.(cache := session.cache[row.groups.value := UserReads(ms, session.user, row.groups.value)])
  }

  function Now(s: State): set<Membership>
    requires s.members != []
  {
    s.members[|s.members| - 1]
  }

  function Retention(s: State): Option<int>
    requires s.keeps != []
  {
    s.keeps[|s.keeps| - 1]
  }

  /** The rows an UPDATE for a receive at rx reaches. */
  function Reach(rows: map<nat, Row>, uid: string, rx: int, slack: int): set<nat> {
    set id | id in rows && rows[id].recipient == uid && rows[id].deliveredAt.None? && rows[id].createdAt < rx - slack
  }

  function StampRows(rows: map<nat, Row>, ids: set<nat>, at: int): map<nat, Row> {
    map id | id in rows :: if id in ids then rows[id].(deliveredAt := Some(at)) else rows[id]
  }

  function Stamped(s: State, ids: set<nat>, at: int, who: Option<nat>): State {
    s.(rows := StampRows(s.rows, ids, at), log := s.log + [Stamp(ids, who)])
  }

  function With(s: State, sid: nat, session: Session): State {
    s.(sessions := s.sessions[sid := session])
  }

  function Without(s: State, sid: nat): State {
    s.(sessions := s.sessions - {sid})
  }

  ghost predicate IsPendingList(s: State, uid: string, now: int, keep: Option<int>, todo: seq<Row>) {
    && InOrder(todo)
    && forall r :: r in todo <==> r.id in s.rows && s.rows[r.id] == r && IsPending(r, uid, now, keep)
  }

  predicate In(s: State, sid: nat, trimmed: bool) {
    && sid in s.sessions
    && if trimmed then s.sessions[sid].phase.Trimmed? else s.sessions[sid].phase.Opened?
  }

  predicate HasNext(s: State, sid: nat) {
    sid in s.sessions && s.sessions[sid].phase.Sending? && s.sessions[sid].phase.todo != []
  }

  /**
    Which steps can be taken. The last_rx_at of a trim or a settling and the retention of a fetch are any value
    set earlier, since they are read before they are used. A batch deletes by the cutoff its purge started with.
  */
  ghost predicate Enabled(s: State, step: Step) {
    s.members != [] && s.keeps != [] &&
    match step
    case Queue(row) =>
      && row.id == s.nextId && row.deliveredAt.None?
      && forall id | id in s.rows :: !(s.rows[id].recipient == row.recipient && s.rows[id].messageUid == row.messageUid)
    case Trim(sid, rx, at) => In(s, sid, false) && (rx.Some? ==> (s.sessions[sid].uid, rx.value) in s.heard)
    case Fetch(sid, now, setting, todo) =>
      In(s, sid, true) && setting < |s.keeps| && IsPendingList(s, s.sessions[sid].uid, now, s.keeps[setting], todo)
    case Skip(sid) => HasNext(s, sid) && !Allowed(s.sessions[sid], s.sessions[sid].phase.todo[0], Now(s))
    case Send(sid) => HasNext(s, sid) && Allowed(s.sessions[sid], s.sessions[sid].phase.todo[0], Now(s))
    case Commit(sid, at) => sid in s.sessions && s.sessions[sid].phase.Writing?
    case End(sid) => sid in s.sessions
    case Settle(uid, last, at) => (uid, last) in s.heard
    case StartPurge(now) => Retention(s).Some?
    case PurgeBatch(pid, at, ids) =>
      && pid in s.purges
      && forall id | id in ids :: id in s.rows && s.rows[id].createdAt < s.purges[pid].started - s.purges[pid].keep
    case _ => true
  }

  /** What a step does. A commit whose row is gone raises and ends the delivery. */
  ghost function After(s: State, step: Step): State
    requires Enabled(s, step)
  {
    match step
    case Queue(row) => s.(rows := s.rows[row.id := row], nextId := s.nextId + 1)
    case Hear(uid, at) => s.(heard := s.heard + {(uid, at)})
    case Regroup(ms) => s.(members := s.members + [ms])
    case Retain(keep) => s.(keeps := s.keeps + [keep])
    case Open(uid, user) =>
      With(s, s.nextSid, Session(uid, user, |s.members| - 1, Opened, map[])).(nextSid := s.nextSid + 1)
    case Trim(sid, rx, at) =>
      var session := s.sessions[sid];
      var s' := if rx.None? then s else Stamped(s, Reach(s.rows, session.uid, rx.value, RX_GRACE), at, Some(sid));
      With(s', sid, session.(phase := Trimmed))
    case Fetch(sid, now, setting, todo) => With(s, sid, s.sessions[sid].(phase := Sending(todo, |s.log|)))
    case Skip(sid) =>
      var session := s.sessions[sid];
      With(s, sid, Remember(session, session.phase.todo[0], Now(s)).(phase := Sending(session.phase.todo[1..], session.phase.mark)))
    case Send(sid) =>
      var session := s.sessions[sid];
      var row := session.phase.todo[0];
      With(s, sid, Remember(session, row, Now(s)).(phase := Writing(row, session.phase.todo[1..], session.phase.mark)))
        .(writes := s.writes + {Write(row.id, session.uid, session.user, session.since, |s.members| - 1, session.phase.mark)})
    case Commit(sid, at) =>
      var session := s.sessions[sid];
      if session.phase.row.id in s.rows then
        With(Stamped(s, {session.phase.row.id}, at, Some(sid)), sid, session.(phase := Sending(session.phase.todo, session.phase.mark)))
      else Without(s, sid)
    case End(sid) => Without(s, sid)
    case Settle(uid, last, at) => Stamped(s, Reach(s.rows, uid, last, TCP_USER_TIMEOUT), at, None)
    case Revoke(uids) =>
      var ids := set id | id in s.rows && s.rows[id].recipient in uids && s.rows[id].deliveredAt.None?;
      s.(rows := s.rows - ids, gone := s.gone + (map id | id in s.rows && id in ids :: Revoked(s.rows[id])))
    case StartPurge(now) =>
      s.(purges := s.purges[s.nextPid := Purging(now, Retention(s).value, |s.keeps| - 1)], nextPid := s.nextPid + 1)
    case PurgeBatch(pid, at, ids) =>
      s.(rows := s.rows - ids,
         gone := s.gone + (map id | id in s.rows && id in ids :: Expired(s.rows[id], s.purges[pid], at, |s.keeps| - 1)))
  }

  ghost predicate IsRun(s: State, steps: seq<Step>)
    decreases |steps|
  {
    steps == [] || (Enabled(s, steps[0]) && IsRun(After(s, steps[0]), steps[1..]))
  }

  ghost function Outcome(s: State, steps: seq<Step>): State
    requires IsRun(s, steps)
    decreases |steps|
  {
    if steps == [] then s else Outcome(After(s, steps[0]), steps[1..])
  }

  function Start(members: set<Membership>, keep: Option<int>): State {
    State(map[], 0, [keep], [members], map[], 0, map[], 0, {}, {}, [], map[])
  }

  // --- what every step keeps ---

  /** The rows a connection has yet to deal with, the one being written first. */
  function Outstanding(phase: Phase): seq<Row> {
    match phase
    case Sending(todo, _) => todo
    case Writing(row, todo, _) => [row] + todo
    case _ => []
  }

  function Mark(phase: Phase): nat {
    if phase.Sending? || phase.Writing? then phase.mark else 0
  }

  /** Every row of the table carries its key, and every id ever given out is in the table or was removed. */
  ghost predicate TableSound(s: State) {
    && (forall id | id in s.rows :: s.rows[id].id == id && id < s.nextId)
    && (forall id | 0 <= id < s.nextId :: id in s.rows || id in s.gone)
    && (forall id | id in s.gone :: id < s.nextId && id !in s.rows)
  }

  /** What was fetched is still what the table says, but for the stamp. */
  ghost predicate SessionSound(s: State, session: Session) {
    && session.since < |s.members| && Mark(session.phase) <= |s.log|
    && InOrder(Outstanding(session.phase))
    && forall r | r in Outstanding(session.phase) ::
         && r.id < s.nextId && r.recipient == session.uid && r.deliveredAt.None?
         && (r.id in s.rows ==> s.rows[r.id].(deliveredAt := None) == r)
  }

  ghost predicate CacheSound(s: State, session: Session) {
    forall g | g in session.cache ::
      exists k :: session.since <= k < |s.members| && session.cache[g] == UserReads(s.members[k], session.user, g)
  }

  ghost predicate SessionsSound(s: State) {
    && s.members != []
    && (forall sid | sid in s.sessions :: sid < s.nextSid && SessionSound(s, s.sessions[sid]))
    && (forall sid | sid in s.sessions :: CacheSound(s, s.sessions[sid]))
  }

  /** The log names exactly the stamped rows of the table. */
  ghost predicate InLog(log: seq<Stamp>, id: nat, from: nat) {
    exists k :: from <= k < |log| && id in log[k].rows
  }

  ghost predicate LogSound(s: State) {
    && (forall id | id in s.rows :: s.rows[id].deliveredAt.Some? <==> InLog(s.log, id, 0))
    && (forall k | 0 <= k < |s.log| :: (forall id | id in s.log[k].rows :: id < s.nextId)
                                       && (s.log[k].who.Some? ==> s.log[k].who.value < s.nextSid))
  }

  /** What a connection still has to send was stamped neither before it fetched nor by itself. */
  ghost predicate Untouched(s: State, sid: nat, session: Session) {
    forall r, k | r in Outstanding(session.phase) && 0 <= k < |s.log| && r.id in s.log[k].rows ::
      k >= Mark(session.phase) && s.log[k].who != Some(sid)
  }

  ghost predicate AllUntouched(s: State) {
    forall sid | sid in s.sessions :: Untouched(s, sid, s.sessions[sid])
  }

  /** The memberships let a connection of the user have the row at some moment from one setting of them to another. */
  ghost predicate WasEntitled(s: State, row: Row, user: Option<int>, since: nat, till: nat) {
    exists k :: since <= k <= till < |s.members| && Entitled(s.members[k], row, user)
  }

  /** The row written to a connection of its device, entitled to it at some moment from its opening to this write. */
  ghost predicate GoodWrite(s: State, row: Row, w: Write) {
    w.row == row.id && w.uid == row.recipient && WasEntitled(s, row, w.user, w.since, w.till)
  }

  /** A row was written to an entitled connection of its device, or the device was heard from well after it. */
  ghost predicate Received(s: State, row: Row) {
    || (exists w | w in s.writes :: GoodWrite(s, row, w))
    || (exists rx | rx in s.heard :: rx.0 == row.recipient && row.createdAt < rx.1 - RX_GRACE)
  }

  ghost predicate WritesSound(s: State) {
    && (forall w | w in s.writes :: w.mark <= |s.log| && forall k | 0 <= k < w.mark :: w.row !in s.log[k].rows)
    && (forall sid | sid in s.sessions && s.sessions[sid].phase.Writing? ::
          exists w | w in s.writes :: GoodWrite(s, s.sessions[sid].phase.row, w))
  }

  ghost predicate Invariant(s: State) {
    TableSound(s) && SessionsSound(s) && LogSound(s) && AllUntouched(s) && WritesSound(s)
  }

  lemma TableStaysSound(s: State, step: Step)
    requires TableSound(s) && Enabled(s, step)
    ensures TableSound(After(s, step))
  {
  }

  /** History only grows. */
  ghost predicate Extends(s: State, t: State) {
    && |s.members| <= |t.members| && t.members[..|s.members|] == s.members
    && |s.log| <= |t.log| && t.log[..|s.log|] == s.log
    && s.heard <= t.heard && s.writes <= t.writes
  }

  lemma HistoryGrows(s: State, step: Step)
    requires Enabled(s, step)
    ensures Extends(s, After(s, step))
  {
  }

  lemma CacheStaysSound(s: State, t: State, session: Session)
    requires CacheSound(s, session) && Extends(s, t)
    ensures CacheSound(t, session)
  {
  }

  lemma RememberedIsSound(s: State, session: Session, row: Row)
    requires s.members != [] && session.since < |s.members| && CacheSound(s, session)
    ensures CacheSound(s, Remember(session, row, Now(s)))
  {
  }

  /** What the cache allows was allowed by the table at some moment of this connection. */
  lemma AllowedWasEntitled(s: State, session: Session, row: Row)
    requires s.members != [] && session.since < |s.members| && CacheSound(s, session)
    requires Allowed(session, row, Now(s))
    ensures WasEntitled(s, row, session.user, session.since, |s.members| - 1)
  {
  }

  lemma SessionsStaySound(s: State, step: Step)
    requires TableSound(s) && SessionsSound(s) && Enabled(s, step)
    ensures SessionsSound(After(s, step))
  {
    forall sid | sid in After(s, step).sessions
      ensures sid < After(s, step).nextSid && SessionSound(After(s, step), After(s, step).sessions[sid])
    {
      if sid in s.sessions {
        assert SessionSound(s, s.sessions[sid]);
        SessionStaysSound(s, step, sid);
      }
    }
    CachesStaySound(s, step);
  }

  lemma SessionStaysSound(s: State, step: Step, sid: nat)
    requires TableSound(s) && Enabled(s, step) && sid in s.sessions && sid in After(s, step).sessions
    requires SessionSound(s, s.sessions[sid]) && sid < s.nextSid
    ensures SessionSound(After(s, step), After(s, step).sessions[sid])
  {
    var t := After(s, step);
    HistoryGrows(s, step);
    SessionKeepsItsOwner(s, step, sid);
    if step.Fetch? && step.sid == sid {
      assert Outstanding(t.sessions[sid].phase) == step.todo;
    } else {
      OutstandingShrinks(s, step, sid);
      LogAfterStep(s, step);
      SessionOutlives(s, t, s.sessions[sid], t.sessions[sid]);
    }
  }

  lemma SessionKeepsItsOwner(s: State, step: Step, sid: nat)
    requires Enabled(s, step) && sid in s.sessions && sid in After(s, step).sessions && sid < s.nextSid
    ensures var before, after := s.sessions[sid], After(s, step).sessions[sid];
            && after.since == before.since && after.uid == before.uid
            && (Mark(before.phase) <= |s.log| ==> Mark(after.phase) <= |s.log|)
  {
  }

  lemma SessionOutlives(s: State, t: State, before: Session, after: Session)
    requires SessionSound(s, before) && s.nextId <= t.nextId && |s.members| <= |t.members| && |s.log| <= |t.log|
    requires after.since == before.since && after.uid == before.uid && Mark(after.phase) <= |t.log|
    requires var o, o' := Outstanding(before.phase), Outstanding(after.phase);
             o' == [] || o' == o || (o != [] && o' == o[1..])
    requires forall id | id in t.rows && id in s.rows :: t.rows[id].(deliveredAt := None) == s.rows[id].(deliveredAt := None)
    requires forall id | id in t.rows && id !in s.rows :: id >= s.nextId
    ensures SessionSound(t, after)
  {
  }

  lemma CachesStaySound(s: State, step: Step)
    requires SessionsSound(s) && Enabled(s, step)
    ensures forall sid | sid in After(s, step).sessions :: CacheSound(After(s, step), After(s, step).sessions[sid])
  {
    var t := After(s, step);
    HistoryGrows(s, step);
    forall sid | sid in t.sessions ensures CacheSound(t, t.sessions[sid]) {
      if sid in s.sessions {
        CacheAfterStep(s, step, sid);
        var source := if (step.Skip? || step.Send?) && step.sid == sid
          then Remember(s.sessions[sid], s.sessions[sid].phase.todo[0], Now(s)) else s.sessions[sid];
        if s.sessions[sid].phase.Sending? && s.sessions[sid].phase.todo != [] {
          RememberedIsSound(s, s.sessions[sid], s.sessions[sid].phase.todo[0]);
        }
        CacheStaysSound(s, t, source);
        SameCache(t, source, t.sessions[sid]);
      }
    }
  }

  lemma SameCache(s: State, a: Session, b: Session)
    requires CacheSound(s, a) && a.cache == b.cache && a.user == b.user && a.since == b.since
    ensures CacheSound(s, b)
  {
  }

  lemma CacheAfterStep(s: State, step: Step, sid: nat)
    requires SessionsSound(s) && Enabled(s, step) && sid in s.sessions && sid in After(s, step).sessions
    ensures var session, after := s.sessions[sid], After(s, step).sessions[sid];
            var source := if (step.Skip? || step.Send?) && step.sid == sid
              then Remember(session, session.phase.todo[0], Now(s)) else session;
            after.cache == source.cache && after.user == source.user && after.since == source.since
  {
    if step.Skip? {
      SkipKeepsCache(s, step, sid);
    } else if step.Send? {
      SendKeepsCache(s, step, sid);
    } else {
      OthersKeepCache(s, step, sid);
    }
  }

  lemma SkipKeepsCache(s: State, step: Step, sid: nat)
    requires Enabled(s, step) && step.Skip? && sid in s.sessions
    ensures var session, after := s.sessions[sid], After(s, step).sessions[sid];
            var source := if step.sid == sid then Remember(session, session.phase.todo[0], Now(s)) else session;
            after.cache == source.cache && after.user == source.user && after.since == source.since
  {
  }

  lemma SendKeepsCache(s: State, step: Step, sid: nat)
    requires Enabled(s, step) && step.Send? && sid in s.sessions
    ensures var session, after := s.sessions[sid], After(s, step).sessions[sid];
            var source := if step.sid == sid then Remember(session, session.phase.todo[0], Now(s)) else session;
            after.cache == source.cache && after.user == source.user && after.since == source.since
  {
  }

  lemma OthersKeepCache(s: State, step: Step, sid: nat)
    requires Enabled(s, step) && !step.Skip? && !step.Send? && sid in s.sessions && sid < s.nextSid
    requires sid in After(s, step).sessions
    ensures var session, after := s.sessions[sid], After(s, step).sessions[sid];
            after.cache == session.cache && after.user == session.user && after.since == session.since
  {
  }

  lemma LogAfterStamp(log: seq<Stamp>, stamp: Stamp, id: nat)
    ensures InLog(log + [stamp], id, 0) <==> InLog(log, id, 0) || id in stamp.rows
  {
    if InLog(log, id, 0) {
      var k :| 0 <= k < |log| && id in log[k].rows;
      assert (log + [stamp])[k] == log[k];
    }
    assert (log + [stamp])[|log|] == stamp;
  }

  /** The stamp a step puts in the log, if any. */
  ghost function Entry(s: State, step: Step): Option<Stamp>
    requires Enabled(s, step)
  {
    match step
    case Trim(sid, rx, at) =>
      if rx.None? then None else Some(Stamp(Reach(s.rows, s.sessions[sid].uid, rx.value, RX_GRACE), Some(sid)))
    case Commit(sid, at) =>
      var id := s.sessions[sid].phase.row.id;
      if id in s.rows then Some(Stamp({id}, Some(sid))) else None
    case Settle(uid, last, at) => Some(Stamp(Reach(s.rows, uid, last, TCP_USER_TIMEOUT), None))
    case _ => None
  }

  lemma LogGrows(s: State, step: Step)
    requires Enabled(s, step)
    ensures var entry := Entry(s, step);
            && After(s, step).log == s.log + (if entry.Some? then [entry.value] else [])
            && (entry.Some? && entry.value.who.Some? ==> (step.Trim? || step.Commit?) && entry.value.who == Some(step.sid))
            && (entry.Some? && step.Commit? ==>
                  s.sessions[step.sid].phase.row.id in s.rows && entry.value.rows == {s.sessions[step.sid].phase.row.id})
  {
  }

  lemma StampingStep(s: State, step: Step)
    requires Enabled(s, step) && Entry(s, step).Some?
    ensures var t := After(s, step);
            && t.rows == StampRows(s.rows, Entry(s, step).value.rows, step.at) && Entry(s, step).value.rows <= s.rows.Keys
            && s.nextId == t.nextId && s.nextSid == t.nextSid
  {
  }

  lemma UnstampingStep(s: State, step: Step)
    requires Enabled(s, step) && Entry(s, step).None? && !step.Queue?
    ensures var t := After(s, step);
            && t.rows.Keys <= s.rows.Keys && (forall id | id in t.rows :: t.rows[id] == s.rows[id])
            && s.nextId == t.nextId && s.nextSid <= t.nextSid
  {
  }

  /** The rows a step leaves: stamps apart they are as they were, but for one that is queued. */
  lemma RowsAfterStep(s: State, step: Step)
    requires TableSound(s) && Enabled(s, step)
    ensures var t, entry := After(s, step), Entry(s, step);
            && (forall id | id in t.rows && id in s.rows ::
                  t.rows[id].(deliveredAt := None) == s.rows[id].(deliveredAt := None)
                  && (t.rows[id].deliveredAt.Some? <==>
                        s.rows[id].deliveredAt.Some? || (entry.Some? && id in entry.value.rows)))
            && (forall id | id in t.rows && id !in s.rows :: id == s.nextId && t.rows[id].deliveredAt.None?)
            && (entry.Some? ==> entry.value.rows <= s.rows.Keys)
            && s.nextId <= t.nextId && s.nextSid <= t.nextSid
  {
    if Entry(s, step).Some? {
      StampingStep(s, step);
    } else if !step.Queue? {
      UnstampingStep(s, step);
    }
  }

  lemma LogAfterStep(s: State, step: Step)
    requires TableSound(s) && Enabled(s, step)
    ensures var t, entry := After(s, step), Entry(s, step);
            && t.log == s.log + (if entry.Some? then [entry.value] else [])
            && (forall id | id in t.rows && id in s.rows ::
                  t.rows[id].(deliveredAt := None) == s.rows[id].(deliveredAt := None)
                  && (t.rows[id].deliveredAt.Some? <==>
                        s.rows[id].deliveredAt.Some? || (entry.Some? && id in entry.value.rows)))
            && (forall id | id in t.rows && id !in s.rows :: id == s.nextId && t.rows[id].deliveredAt.None?)
            && (entry.Some? ==> entry.value.rows <= s.rows.Keys)
            && s.nextId <= t.nextId && s.nextSid <= t.nextSid
  {
    LogGrows(s, step);
    RowsAfterStep(s, step);
  }

  lemma LogStaysSound(s: State, step: Step)
    requires TableSound(s) && SessionsSound(s) && LogSound(s) && Enabled(s, step)
    ensures LogSound(After(s, step))
  {
    LogAfterStep(s, step);
    LogOutlives(s, After(s, step), Entry(s, step));
  }

  lemma LogOutlives(s: State, t: State, entry: Option<Stamp>)
    requires TableSound(s) && LogSound(s) && s.nextId <= t.nextId && s.nextSid <= t.nextSid
    requires t.log == s.log + (if entry.Some? then [entry.value] else [])
    requires forall id | id in t.rows && id in s.rows ::
               t.rows[id].deliveredAt.Some? <==> s.rows[id].deliveredAt.Some? || (entry.Some? && id in entry.value.rows)
    requires forall id | id in t.rows && id !in s.rows :: id >= s.nextId && t.rows[id].deliveredAt.None?
    requires entry.Some? ==> entry.value.rows <= s.rows.Keys && (entry.value.who.Some? ==> entry.value.who.value < t.nextSid)
    ensures LogSound(t)
  {
    forall id | id in t.rows
      ensures t.rows[id].deliveredAt.Some? <==> InLog(t.log, id, 0)
    {
      if entry.Some? {
        LogAfterStamp(s.log, entry.value, id);
      }
      assert entry.None? ==> t.log == s.log;
      assert id !in s.rows ==> !InLog(s.log, id, 0);
    }
  }

  lemma StaysUntouched(s: State, step: Step)
    requires TableSound(s) && SessionsSound(s) && LogSound(s) && AllUntouched(s) && Enabled(s, step)
    ensures AllUntouched(After(s, step))
  {
    var t, entry := After(s, step), Entry(s, step);
    LogAfterStep(s, step);
    forall sid | sid in t.sessions ensures Untouched(t, sid, t.sessions[sid]) {
      if sid in s.sessions {
        assert Untouched(s, sid, s.sessions[sid]);
        assert SessionSound(s, s.sessions[sid]);
        if step.Fetch? && step.sid == sid {
          FetchedAreUntouched(s, step);
        } else {
          OutstandingShrinks(s, step, sid);
          KeepsUntouched(s, step, sid);
        }
      }
    }
  }

  lemma FetchedAreUntouched(s: State, step: Step)
    requires TableSound(s) && LogSound(s) && Enabled(s, step) && step.Fetch?
    ensures var t := After(s, step); Untouched(t, step.sid, t.sessions[step.sid])
  {
  }

  /** A step other than a fetch only takes rows off what a connection has to deal with. */
  lemma OutstandingShrinks(s: State, step: Step, sid: nat)
    requires Enabled(s, step) && sid in s.sessions && sid in After(s, step).sessions
    requires !(step.Fetch? && step.sid == sid) && s.nextSid != sid
    ensures var before, after := s.sessions[sid].phase, After(s, step).sessions[sid].phase;
            && (Outstanding(after) == [] || Outstanding(after) == Outstanding(before)
                || (Outstanding(before) != [] && Outstanding(after) == Outstanding(before)[1..]))
            && (Outstanding(after) != [] ==> Mark(after) == Mark(before))
            && (step.Commit? && step.sid == sid ==> Outstanding(before) == [before.row] + Outstanding(after))
            && (step.Trim? && step.sid == sid ==> Outstanding(after) == [])
  {
  }

  lemma KeepsUntouched(s: State, step: Step, sid: nat)
    requires Enabled(s, step) && sid in s.sessions && sid in After(s, step).sessions
    requires !(step.Fetch? && step.sid == sid) && s.nextSid != sid
    requires Untouched(s, sid, s.sessions[sid]) && SessionSound(s, s.sessions[sid])
    ensures Untouched(After(s, step), sid, After(s, step).sessions[sid])
  {
    var t, entry := After(s, step), Entry(s, step);
    LogGrows(s, step);
    OutstandingShrinks(s, step, sid);
    if step.Commit? && step.sid == sid && entry.Some? {
      CommittedRowIsDone(s, s.sessions[sid], Outstanding(t.sessions[sid].phase));
    }
    UntouchedOutlives(s, t, sid, s.sessions[sid], t.sessions[sid], entry);
  }

  /** The row being written is not among the rows after it. */
  lemma CommittedRowIsDone(s: State, session: Session, after: seq<Row>)
    requires SessionSound(s, session) && session.phase.Writing? && session.phase.row.id in s.rows
    requires Outstanding(session.phase) == [session.phase.row] + after
    ensures forall r | r in after :: r.id != session.phase.row.id
  {
    var before := Outstanding(session.phase);
    forall r | r in after ensures r.id != before[0].id {
      var j :| 0 <= j < |after| && after[j] == r;
      assert before[0] in before && before[j + 1] in before && Before(before[0], before[j + 1]);
    }
  }

  lemma UntouchedOutlives(s: State, t: State, sid: nat, before: Session, after: Session, entry: Option<Stamp>)
    requires Untouched(s, sid, before) && Mark(before.phase) <= |s.log|
    requires forall r | r in Outstanding(after.phase) :: r in Outstanding(before.phase)
    requires Outstanding(after.phase) != [] ==> Mark(after.phase) == Mark(before.phase)
    requires t.log == s.log + (if entry.Some? then [entry.value] else [])
    requires entry.Some? && entry.value.who == Some(sid) ==>
               forall r | r in Outstanding(after.phase) :: r.id !in entry.value.rows
    ensures Untouched(t, sid, after)
  {
  }

  lemma StillReceived(s: State, t: State, row: Row, stamped: Row)
    requires Extends(s, t) && stamped.(deliveredAt := None) == row.(deliveredAt := None)
    ensures forall w :: GoodWrite(s, row, w) ==> GoodWrite(t, stamped, w)
    ensures Received(s, row) ==> Received(t, stamped)
  {
  }

  lemma WritesStaySound(s: State, step: Step)
    requires TableSound(s) && SessionsSound(s) && LogSound(s) && AllUntouched(s) && WritesSound(s) && Enabled(s, step)
    ensures WritesSound(After(s, step))
  {
    WritesStayFresh(s, step);
    WritersStaySound(s, step);
  }

  lemma WritesStayFresh(s: State, step: Step)
    requires SessionsSound(s) && AllUntouched(s) && WritesSound(s) && Enabled(s, step)
    ensures var t := After(s, step);
            forall w | w in t.writes :: w.mark <= |t.log| && forall k | 0 <= k < w.mark :: w.row !in t.log[k].rows
  {
    var t := After(s, step);
    HistoryGrows(s, step);
    NewWrites(s, step);
    if step.Send? {
      NewWriteIsFresh(s, step);
    }
    assert forall k | 0 <= k < |s.log| :: t.log[k] == s.log[k];
  }

  /** Only a send adds to what was written, and it adds one write. */
  lemma NewWrites(s: State, step: Step)
    requires Enabled(s, step)
    ensures forall w | w in After(s, step).writes && w !in s.writes ::
              step.Send? && w.mark == s.sessions[step.sid].phase.mark && w.row == s.sessions[step.sid].phase.todo[0].id
  {
  }

  lemma NewWriteIsFresh(s: State, step: Step)
    requires SessionsSound(s) && AllUntouched(s) && Enabled(s, step) && step.Send?
    ensures var phase := s.sessions[step.sid].phase;
            phase.mark <= |s.log| && forall k | 0 <= k < phase.mark :: phase.todo[0].id !in s.log[k].rows
  {
  }

  /** What Send writes is a good write of the row its connection is then writing. */
  lemma SentIsGood(s: State, step: Step)
    requires SessionsSound(s) && Enabled(s, step) && step.Send?
    ensures var t, row := After(s, step), s.sessions[step.sid].phase.todo[0];
            exists w | w in t.writes :: GoodWrite(t, row, w)
  {
    var t, session := After(s, step), s.sessions[step.sid];
    var row := session.phase.todo[0];
    var w := Write(row.id, session.uid, session.user, session.since, |s.members| - 1, session.phase.mark);
    AllowedWasEntitled(s, session, row);
    assert row in Outstanding(session.phase) && SessionSound(s, session);
    assert w in t.writes && t.members == s.members && GoodWrite(t, row, w);
  }

  /** Only a send starts writing a row. */
  lemma OthersWriteOn(s: State, step: Step, sid: nat)
    requires Enabled(s, step) && !step.Send? && sid in After(s, step).sessions && After(s, step).sessions[sid].phase.Writing?
    ensures sid in s.sessions && s.sessions[sid].phase == After(s, step).sessions[sid].phase
  {
  }

  lemma WritersStaySound(s: State, step: Step)
    requires SessionsSound(s) && WritesSound(s) && Enabled(s, step)
    ensures var t := After(s, step);
            forall sid | sid in t.sessions && t.sessions[sid].phase.Writing? ::
              exists w | w in t.writes :: GoodWrite(t, t.sessions[sid].phase.row, w)
  {
    var t := After(s, step);
    HistoryGrows(s, step);
    forall sid | sid in t.sessions && t.sessions[sid].phase.Writing?
      ensures exists w | w in t.writes :: GoodWrite(t, t.sessions[sid].phase.row, w)
    {
      if step.Send? && step.sid == sid {
        SentIsGood(s, step);
      } else {
        if !step.Send? {
          OthersWriteOn(s, step, sid);
        }
        assert sid in s.sessions && s.sessions[sid].phase == t.sessions[sid].phase;
        WriterStaysSound(s, t, t.sessions[sid].phase.row);
      }
    }
  }

  lemma WriterStaysSound(s: State, t: State, row: Row)
    requires Extends(s, t) && exists w | w in s.writes :: GoodWrite(s, row, w)
    ensures exists w | w in t.writes :: GoodWrite(t, row, w)
  {
    StillReceived(s, t, row, row);
  }

  /** Whatever a step stamps was written to an entitled connection, or heard past. */
  lemma StampIsExplained(s: State, step: Step, id: nat)
    requires TableSound(s) && SessionsSound(s) && WritesSound(s) && Enabled(s, step)
    requires id in s.rows && Entry(s, step).Some? && id in Entry(s, step).value.rows
    ensures Received(s, s.rows[id])
  {
  }

  lemma StepKeepsInvariant(s: State, step: Step)
    requires Invariant(s) && Enabled(s, step)
    ensures Invariant(After(s, step))
  {
    TableStaysSound(s, step);
    SessionsStaySound(s, step);
    LogStaysSound(s, step);
    StaysUntouched(s, step);
    WritesStaySound(s, step);
  }

  lemma {:induction false} RunKeepsInvariant(s: State, steps: seq<Step>)
    requires Invariant(s) && IsRun(s, steps)
    ensures Invariant(Outcome(s, steps))
    decreases |steps|
  {
    if steps != [] {
      StepKeepsInvariant(s, steps[0]);
      RunKeepsInvariant(After(s, steps[0]), steps[1..]);
    }
  }

  lemma {:induction false} RunBeforeLast(s: State, a: seq<Step>, step: Step)
    requires IsRun(s, a + [step])
    ensures IsRun(s, a) && Enabled(Outcome(s, a), step) && Outcome(s, a + [step]) == After(Outcome(s, a), step)
    decreases |a|
  {
    if a == [] {
      assert a + [step] == [step] && [step][1..] == [];
    } else {
      assert (a + [step])[1..] == a[1..] + [step];
      RunBeforeLast(After(s, a[0]), a[1..], step);
    }
  }

  // --- the results ---

  /** The j-th step of the run stamps the row, and by then its device had been sent it or was heard from after it. */
  ghost predicate StampedOnEvidence(start: State, steps: seq<Step>, j: nat, id: nat) {
    j < |steps| && IsRun(start, steps[..j])
    && var s := Outcome(start, steps[..j]);
       && Enabled(s, steps[j])
       && id in s.rows && s.rows[id].deliveredAt.None? && Received(s, s.rows[id])
       && id in After(s, steps[j]).rows && After(s, steps[j]).rows[id].deliveredAt.Some?
  }

  /** The row was stamped already before the last step. */
  ghost predicate StampedBefore(start: State, steps: seq<Step>, id: nat)
    requires steps != [] && IsRun(start, steps[..|steps| - 1])
  {
    var s := Outcome(start, steps[..|steps| - 1]);
    id in s.rows && s.rows[id].deliveredAt.Some?
  }

  lemma SameStep(start: State, steps: seq<Step>, n: nat, id: nat)
    requires n <= |steps| && exists j: nat :: StampedOnEvidence(start, steps[..n], j, id)
    ensures exists j: nat :: StampedOnEvidence(start, steps, j, id)
  {
    var j: nat :| StampedOnEvidence(start, steps[..n], j, id);
    assert steps[..n][..j] == steps[..j];
    assert StampedOnEvidence(start, steps, j, id);
  }

  lemma LastStampsOnEvidence(start: State, steps: seq<Step>, id: nat)
    requires steps != [] && IsRun(start, steps[..|steps| - 1]) && Invariant(Outcome(start, steps[..|steps| - 1]))
    requires var s, step := Outcome(start, steps[..|steps| - 1]), steps[|steps| - 1];
             Enabled(s, step) && id in After(s, step).rows && After(s, step).rows[id].deliveredAt.Some?
    requires !StampedBefore(start, steps, id)
    ensures StampedOnEvidence(start, steps, |steps| - 1, id)
  {
    var s, step := Outcome(start, steps[..|steps| - 1]), steps[|steps| - 1];
    LogAfterStep(s, step);
    StampIsExplained(s, step, id);
  }

  /**
    In every run a stamped row was stamped by a step before which its bytes had been written to a
    connection of its device entitled to it at some moment from its opening to that write, or the server
    had recorded a receive from the device more than RX_GRACE after the row was created.
  */
  lemma {:induction false} StampedMeansReceived(members: set<Membership>, keep: Option<int>, steps: seq<Step>, id: nat)
    requires IsRun(Start(members, keep), steps)
    requires var s := Outcome(Start(members, keep), steps); id in s.rows && s.rows[id].deliveredAt.Some?
    ensures exists j :: StampedOnEvidence(Start(members, keep), steps, j, id)
    decreases |steps|
  {
    var start := Start(members, keep);
    if steps != [] {
      var n := |steps| - 1;
      assert steps == steps[..n] + [steps[n]];
      RunBeforeLast(start, steps[..n], steps[n]);
      RunKeepsInvariant(start, steps[..n]);
      if StampedBefore(start, steps, id) {
        StampedMeansReceived(members, keep, steps[..n], id);
        SameStep(start, steps, n, id);
      } else {
        LastStampsOnEvidence(start, steps, id);
      }
    }
  }

  /** What a connection has still to send, the row being written first, is in order of age. */
  lemma OutstandingOldestFirst(members: set<Membership>, keep: Option<int>, steps: seq<Step>, sid: nat)
    requires IsRun(Start(members, keep), steps) && sid in Outcome(Start(members, keep), steps).sessions
    ensures var todo := Outstanding(Outcome(Start(members, keep), steps).sessions[sid].phase);
            forall i, j | 0 <= i < j < |todo| ::
              todo[i].createdAt < todo[j].createdAt || (todo[i].createdAt == todo[j].createdAt && todo[i].id < todo[j].id)
  {
    RunKeepsInvariant(Start(members, keep), steps);
    var session := Outcome(Start(members, keep), steps).sessions[sid];
    assert SessionSound(Outcome(Start(members, keep), steps), session);
    var todo := Outstanding(session.phase);
    assert forall i, j | 0 <= i < j < |todo| :: Before(todo[i], todo[j]);
  }

  /** A connection that fetched its list after a row was stamped never sends that row. */
  lemma StampedBeforeFetchIsNeverSent(members: set<Membership>, keep: Option<int>, steps: seq<Step>, w: Write, k: nat)
    requires IsRun(Start(members, keep), steps)
    requires w in Outcome(Start(members, keep), steps).writes && k < w.mark
    ensures k < |Outcome(Start(members, keep), steps).log|
    ensures w.row !in Outcome(Start(members, keep), steps).log[k].rows
  {
    RunKeepsInvariant(Start(members, keep), steps);
  }

  /**
    A connection is about to send a row that is stamped already exactly if somebody else, another
    connection or the settling job, stamped it since this connection fetched its list.
  */
  lemma SendsStampedRowIff(members: set<Membership>, keep: Option<int>, steps: seq<Step>, sid: nat)
    requires IsRun(Start(members, keep), steps) && HasNext(Outcome(Start(members, keep), steps), sid)
    ensures var s := Outcome(Start(members, keep), steps);
            var phase := s.sessions[sid].phase;
            phase.todo[0].id in s.rows ==>
              (s.rows[phase.todo[0].id].deliveredAt.Some? <==>
                 exists k :: phase.mark <= k < |s.log| && phase.todo[0].id in s.log[k].rows && s.log[k].who != Some(sid))
  {
    RunKeepsInvariant(Start(members, keep), steps);
    var s := Outcome(Start(members, keep), steps);
    var phase := s.sessions[sid].phase;
    var id := phase.todo[0].id;
    assert Untouched(s, sid, s.sessions[sid]) && phase.todo[0] in Outstanding(phase);
    if id in s.rows && s.rows[id].deliveredAt.Some? {
      assert InLog(s.log, id, 0);
      var k :| 0 <= k < |s.log| && id in s.log[k].rows;
      assert phase.mark <= k && s.log[k].who != Some(sid);
    }
  }

  // --- a connection nobody disturbs ---

  /** No other connection of the device is open. */
  ghost predicate Alone(s: State, sid: nat) {
    sid in s.sessions && forall other | other in s.sessions && other != sid :: s.sessions[other].uid != s.sessions[sid].uid
  }

  /** A step that opens another connection of the device or settles its rows, or fetches again. */
  predicate Disturbs(step: Step, sid: nat, uid: string) {
    (step.Open? && step.uid == uid) || (step.Settle? && step.uid == uid) || (step.Fetch? && step.sid == sid)
  }

  ghost predicate Undisturbed(steps: seq<Step>, sid: nat, uid: string) {
    forall step | step in steps :: !Disturbs(step, sid, uid)
  }

  /** Nothing the connection has still to deal with was ever stamped. */
  ghost predicate Clean(s: State, session: Session) {
    forall r, k | r in Outstanding(session.phase) && 0 <= k < |s.log| :: r.id !in s.log[k].rows
  }

  /** While a connection has rows to deal with, a stamp that does not disturb it touches none of them, but for the one it commits. */
  lemma StampLeavesAlone(s: State, step: Step, sid: nat)
    requires Invariant(s) && Enabled(s, step) && Alone(s, sid) && !Disturbs(step, sid, s.sessions[sid].uid)
    requires Entry(s, step).Some? && !(step.Commit? && step.sid == sid)
    ensures forall r | r in Outstanding(s.sessions[sid].phase) :: r.id !in Entry(s, step).value.rows
  {
    var session := s.sessions[sid];
    assert SessionSound(s, session);
    if step.Commit? {
      var other := s.sessions[step.sid];
      assert SessionSound(s, other) && other.phase.row in Outstanding(other.phase);
    }
  }

  lemma CommitMisses(s: State, step: Step, sid: nat)
    requires SessionsSound(s) && Enabled(s, step) && step.Commit? && step.sid == sid && Entry(s, step).Some?
    requires sid in After(s, step).sessions && s.nextSid != sid
    ensures forall r | r in Outstanding(After(s, step).sessions[sid].phase) :: r.id !in Entry(s, step).value.rows
  {
    LogGrows(s, step);
    OutstandingShrinks(s, step, sid);
    CommittedRowIsDone(s, s.sessions[sid], Outstanding(After(s, step).sessions[sid].phase));
  }

  /** Nothing a connection still has to deal with after an undisturbing step was stamped by it. */
  lemma StampMisses(s: State, step: Step, sid: nat)
    requires Invariant(s) && Enabled(s, step) && Alone(s, sid)
    requires !Disturbs(step, sid, s.sessions[sid].uid) && sid in After(s, step).sessions && s.nextSid != sid
    ensures Entry(s, step).Some? ==>
              forall r | r in Outstanding(After(s, step).sessions[sid].phase) :: r.id !in Entry(s, step).value.rows
  {
    if Entry(s, step).Some? {
      if step.Commit? && step.sid == sid {
        CommitMisses(s, step, sid);
      } else {
        StampLeavesAlone(s, step, sid);
        OutstandingShrinks(s, step, sid);
      }
    }
  }

  lemma StaysClean(s: State, step: Step, sid: nat)
    requires Invariant(s) && Enabled(s, step) && Alone(s, sid) && Clean(s, s.sessions[sid])
    requires !Disturbs(step, sid, s.sessions[sid].uid) && sid in After(s, step).sessions && s.nextSid != sid
    ensures Clean(After(s, step), After(s, step).sessions[sid])
  {
    LogGrows(s, step);
    OutstandingShrinks(s, step, sid);
    StampMisses(s, step, sid);
    CleanOutlives(s, After(s, step), s.sessions[sid], After(s, step).sessions[sid], Entry(s, step));
  }

  lemma CleanOutlives(s: State, t: State, before: Session, after: Session, entry: Option<Stamp>)
    requires Clean(s, before) && forall r | r in Outstanding(after.phase) :: r in Outstanding(before.phase)
    requires t.log == s.log + (if entry.Some? then [entry.value] else [])
    requires entry.Some? ==> forall r | r in Outstanding(after.phase) :: r.id !in entry.value.rows
    ensures Clean(t, after)
  {
  }

  lemma StaysAlone(s: State, step: Step, sid: nat)
    requires Enabled(s, step) && Alone(s, sid) && !Disturbs(step, sid, s.sessions[sid].uid) && sid < s.nextSid
    ensures sid in After(s, step).sessions ==>
              Alone(After(s, step), sid) && After(s, step).sessions[sid].uid == s.sessions[sid].uid
    ensures sid !in After(s, step).sessions ==> After(s, step).nextSid == s.nextSid
  {
  }

  lemma {:induction false} EndedStaysEnded(s: State, steps: seq<Step>, sid: nat)
    requires IsRun(s, steps) && sid < s.nextSid && sid !in s.sessions
    ensures sid !in Outcome(s, steps).sessions
    decreases |steps|
  {
    if steps != [] {
      EndedStaysEnded(After(s, steps[0]), steps[1..], sid);
    }
  }

  lemma {:induction false} RunStaysClean(s: State, steps: seq<Step>, sid: nat)
    requires Invariant(s) && IsRun(s, steps) && Alone(s, sid) && Clean(s, s.sessions[sid])
    requires Undisturbed(steps, sid, s.sessions[sid].uid)
    ensures sid in Outcome(s, steps).sessions ==> Clean(Outcome(s, steps), Outcome(s, steps).sessions[sid])
    decreases |steps|
  {
    if steps != [] {
      var t := After(s, steps[0]);
      assert steps[0] in steps && steps == [steps[0]] + steps[1..];
      StepKeepsInvariant(s, steps[0]);
      StaysAlone(s, steps[0], sid);
      if sid in t.sessions {
        StaysClean(s, steps[0], sid);
        RunStaysClean(t, steps[1..], sid);
      } else {
        EndedStaysEnded(t, steps[1..], sid);
      }
    }
  }

  lemma CleanNextIsUnstamped(s: State, sid: nat)
    requires LogSound(s) && HasNext(s, sid) && Clean(s, s.sessions[sid]) && s.sessions[sid].phase.todo[0].id in s.rows
    ensures s.rows[s.sessions[sid].phase.todo[0].id].deliveredAt.None?
  {
    assert s.sessions[sid].phase.todo[0] in Outstanding(s.sessions[sid].phase);
  }

  /** Right after its fetch a connection has nothing stamped to deal with. */
  lemma FetchedIsClean(s: State, fetch: Step)
    requires Invariant(s) && fetch.Fetch? && Enabled(s, fetch)
    ensures Invariant(After(s, fetch)) && fetch.sid in After(s, fetch).sessions
    ensures Clean(After(s, fetch), After(s, fetch).sessions[fetch.sid])
  {
    StepKeepsInvariant(s, fetch);
    FetchedAreUntouched(s, fetch);
  }

  /**
    What a caller can see to: if no other connection of the device is open when one fetches its list,
    and until it is through none is opened and the settling job leaves the device alone, then it never
    sends a row that is stamped delivered.
  */
  lemma UndisturbedNeverResends(members: set<Membership>, keep: Option<int>, before: seq<Step>, fetch: Step, steps: seq<Step>, t: State)
    requires IsRun(Start(members, keep), before) && fetch.Fetch? && Enabled(Outcome(Start(members, keep), before), fetch)
    requires t == After(Outcome(Start(members, keep), before), fetch)
    requires Alone(t, fetch.sid) && IsRun(t, steps) && Undisturbed(steps, fetch.sid, t.sessions[fetch.sid].uid)
    requires HasNext(Outcome(t, steps), fetch.sid)
    ensures var s := Outcome(t, steps);
            var row := s.sessions[fetch.sid].phase.todo[0];
            row.id in s.rows ==> s.rows[row.id].deliveredAt.None?
  {
    RunKeepsInvariant(Start(members, keep), before);
    FetchedIsClean(Outcome(Start(members, keep), before), fetch);
    RunKeepsInvariant(t, steps);
    RunStaysClean(t, steps, fetch.sid);
    var s := Outcome(t, steps);
    if s.sessions[fetch.sid].phase.todo[0].id in s.rows {
      CleanNextIsUnstamped(s, fetch.sid);
    }
  }

  lemma OneStep(s: State, step: Step)
    requires Enabled(s, step)
    ensures IsRun(s, [step]) && Outcome(s, [step]) == After(s, step)
  {
  }

  lemma {:induction false} RunOneMore(s: State, a: seq<Step>, step: Step)
    requires IsRun(s, a) && Enabled(Outcome(s, a), step)
    ensures IsRun(s, a + [step]) && Outcome(s, a + [step]) == After(Outcome(s, a), step)
    decreases |a|
  {
    if a == [] {
      assert a + [step] == [step] && [step][1..] == [];
    } else {
      RunOneMore(After(s, a[0]), a[1..], step);
      assert (a + [step])[1..] == a[1..] + [step];
    }
  }

  const HELD := Row(0, "PHONE", None, None, "chat", "<event/>", 100, None)
  const FETCHING := Session("PHONE", None, 0, Sending([HELD], 0), map[])

  /** Two connections of a device that both hold the one row in their list. */
  function BothFetched(): State {
    State(map[0 := HELD], 1, [None], [{}], map[0 := FETCHING, 1 := FETCHING], 2, map[], 0, {}, {}, [], map[])
  }

  function Fetching(): seq<Step> {
    [Queue(HELD)] + [Open("PHONE", None)] + [Open("PHONE", None)] + [Trim(0, None, 200)] + [Trim(1, None, 200)]
    + [Fetch(0, 200, 0, [HELD])] + [Fetch(1, 200, 0, [HELD])]
  }

  /** The two connections are open and trimmed. */
  lemma BothCanOpen()
    ensures var run := [Queue(HELD)] + [Open("PHONE", None)] + [Open("PHONE", None)] + [Trim(0, None, 200)] + [Trim(1, None, 200)];
            && IsRun(Start({}, None), run)
            && var trimmed := Session("PHONE", None, 0, Trimmed, map[]);
               Outcome(Start({}, None), run)
               == State(map[0 := HELD], 1, [None], [{}], map[0 := trimmed, 1 := trimmed], 2, map[], 0, {}, {}, [], map[])
  {
    var s := Start({}, None);
    OneStep(s, Queue(HELD));
    var a := [Queue(HELD)];
    RunOneMore(s, a, Open("PHONE", None));
    a := a + [Open("PHONE", None)];
    RunOneMore(s, a, Open("PHONE", None));
    a := a + [Open("PHONE", None)];
    RunOneMore(s, a, Trim(0, None, 200));
    a := a + [Trim(0, None, 200)];
    RunOneMore(s, a, Trim(1, None, 200));
  }

  lemma BothCanFetch()
    ensures IsRun(Start({}, None), Fetching()) && Outcome(Start({}, None), Fetching()) == BothFetched()
  {
    var s := Start({}, None);
    BothCanOpen();
    var a := [Queue(HELD)] + [Open("PHONE", None)] + [Open("PHONE", None)] + [Trim(0, None, 200)] + [Trim(1, None, 200)];
    assert IsPendingList(Outcome(s, a), "PHONE", 200, None, [HELD]);
    RunOneMore(s, a, Fetch(0, 200, 0, [HELD]));
    a := a + [Fetch(0, 200, 0, [HELD])];
    assert IsPendingList(Outcome(s, a), "PHONE", 200, None, [HELD]);
    RunOneMore(s, a, Fetch(1, 200, 0, [HELD]));
    a := a + [Fetch(1, 200, 0, [HELD])];
    assert Outcome(s, a).sessions == BothFetched().sessions;
  }

  /** Overlapping connections of one device: the second sends a row that is stamped delivered. */
  lemma OverlapSendsTwice()
    ensures var run := Fetching() + [Send(0)] + [Commit(0, 201)];
            && IsRun(Start({}, None), run)
            && var s := Outcome(Start({}, None), run);
               Enabled(s, Send(1)) && s.sessions[1].phase.todo[0].id in s.rows
               && s.rows[s.sessions[1].phase.todo[0].id].deliveredAt.Some?
  {
    BothCanFetch();
    RunOneMore(Start({}, None), Fetching(), Send(0));
    RunOneMore(Start({}, None), Fetching() + [Send(0)], Commit(0, 201));
  }
}
