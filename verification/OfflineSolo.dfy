/**
  The steps of OfflineRuns.dfy, taken by one connection with nothing in between, are
  deliver_pending as OfflineChat.dfy states it (raven/offline_chat.py).
*/
module OfflineSolo {
  import opened Wrappers
  import opened OfflineChat
  import opened OfflineRuns

  /** The same table once as a list and once by id. */
  ghost predicate TableIs(rows: seq<Row>, m: map<nat, Row>) {
    && DistinctIds(rows)
    && (forall i | 0 <= i < |rows| :: rows[i].id in m && m[rows[i].id] == rows[i])
    && m.Keys == Ids(rows)
  }

  lemma TableMember(rows: seq<Row>, m: map<nat, Row>, r: Row)
    requires TableIs(rows, m)
    ensures r in rows <==> r.id in m && m[r.id] == r
  {
    if r.id in m && m[r.id] == r {
      assert r.id in Ids(rows);
      var x :| x in rows && x.id == r.id;
    }
  }

  lemma SameIds(a: seq<Row>, b: seq<Row>)
    requires |a| == |b| && forall i | 0 <= i < |a| :: a[i].id == b[i].id
    ensures Ids(a) <= Ids(b)
  {
    forall id | id in Ids(a) ensures id in Ids(b) {
      var r :| r in a && r.id == id;
      var i :| 0 <= i < |a| && a[i] == r;
      assert b[i] in b;
    }
  }

  lemma StampedTableIs(rows: seq<Row>, m: map<nat, Row>, ids: set<nat>, at: int)
    requires TableIs(rows, m)
    ensures TableIs(StampIds(rows, ids, at), StampRows(m, ids, at))
  {
    var after := StampIds(rows, ids, at);
    assert forall i | 0 <= i < |rows| :: after[i].id == rows[i].id;
    SameIds(rows, after);
    SameIds(after, rows);
  }

  /** Stamping by a device's last receive is stamping the ids that receive reaches. */
  lemma StampIsReached(rows: seq<Row>, m: map<nat, Row>, uid: string, lastRx: map<string, int>, slack: int, at: int)
    requires TableIs(rows, m)
    ensures StampReached(rows, {uid}, lastRx, slack, at)
            == if uid in lastRx then StampIds(rows, Reach(m, uid, lastRx[uid], slack), at) else rows
  {
  }

  /** The settling step leaves the table Store.Settle does for that one device. */
  lemma SettleIsStampReached(s: State, rows: seq<Row>, uid: string, lastRx: map<string, int>, at: int)
    requires s.members != [] && s.keeps != [] && TableIs(rows, s.rows) && uid in lastRx && (uid, lastRx[uid]) in s.heard
    ensures Enabled(s, Settle(uid, lastRx[uid], at))
    ensures TableIs(StampReached(rows, {uid}, lastRx, TCP_USER_TIMEOUT, at), After(s, Settle(uid, lastRx[uid], at)).rows)
  {
    StampIsReached(rows, s.rows, uid, lastRx, TCP_USER_TIMEOUT, at);
    StampedTableIs(rows, s.rows, Reach(s.rows, uid, lastRx[uid], TCP_USER_TIMEOUT), at);
  }

  /** The revoking step leaves the rows Store.DropQueue leaves. */
  lemma RevokeIsDropped(s: State, rows: seq<Row>, uids: set<string>)
    requires s.members != [] && s.keeps != [] && TableIs(rows, s.rows)
    ensures forall r :: r in Dropped(rows, uids) <==>
              r.id in After(s, Step.Revoke(uids)).rows && After(s, Step.Revoke(uids)).rows[r.id] == r
  {
    DroppedMembers(rows, uids);
    forall r ensures r in rows <==> r.id in s.rows && s.rows[r.id] == r {
      TableMember(rows, s.rows, r);
    }
  }

  lemma PendingIsAList(rows: seq<Row>, s: State, uid: string, now: int, keep: Option<int>)
    requires TableIs(rows, s.rows)
    ensures IsPendingList(s, uid, now, keep, Pending(rows, uid, now, keep))
  {
    PendingIsExact(rows, uid, now, keep);
    forall r ensures r in rows <==> r.id in s.rows && s.rows[r.id] == r {
      TableMember(rows, s.rows, r);
    }
  }

  /** What the loop does with a row: send and commit it, or pass it over. */
  function Turn(row: Row, ms: set<Membership>, user: Option<int>, sid: nat, at: int): seq<Step> {
    if Entitled(ms, row, user) then [Send(sid), Commit(sid, at)] else [Skip(sid)]
  }

  function Solo(todo: seq<Row>, ms: set<Membership>, user: Option<int>, sid: nat, at: int): seq<Step> {
    if todo == [] then []
    else Turn(todo[0], ms, user, sid, at) + Solo(todo[1..], ms, user, sid, at)
  }

  function EntitledIds(todo: seq<Row>, ms: set<Membership>, user: Option<int>): set<nat> {
    set r | r in todo && Entitled(ms, r, user) :: r.id
  }

  /** A connection in its loop whose memo table is right for the memberships in force. */
  ghost predicate Ready(s: State, sid: nat) {
    && s.members != [] && s.keeps != [] && sid in s.sessions && s.sessions[sid].phase.Sending?
    && CacheRight(s.sessions[sid].cache, Now(s), s.sessions[sid].user)
    && forall r | r in s.sessions[sid].phase.todo :: r.id in s.rows
  }

  lemma AllowedIsEntitled(s: State, sid: nat)
    requires Ready(s, sid) && s.sessions[sid].phase.todo != []
    ensures var session := s.sessions[sid];
            && (Allowed(session, session.phase.todo[0], Now(s)) <==> Entitled(Now(s), session.phase.todo[0], session.user))
            && CacheRight(Remember(session, session.phase.todo[0], Now(s)).cache, Now(s), session.user)
  {
  }

  lemma SentTurn(s: State, sid: nat, at: int)
    requires Ready(s, sid) && s.sessions[sid].phase.todo != []
    requires Entitled(Now(s), s.sessions[sid].phase.todo[0], s.sessions[sid].user)
    ensures Enabled(s, Send(sid)) && Enabled(After(s, Send(sid)), Commit(sid, at))
    ensures var session := s.sessions[sid];
            var row := session.phase.todo[0];
            var t := After(After(s, Send(sid)), Commit(sid, at));
            && t.members == s.members && t.keeps == s.keeps && t.rows == StampRows(s.rows, {row.id}, at) && sid in t.sessions
            && t.sessions[sid] == Remember(session, row, Now(s)).(phase := Sending(session.phase.todo[1..], session.phase.mark))
  {
    AllowedIsEntitled(s, sid);
    assert s.sessions[sid].phase.todo[0] in s.sessions[sid].phase.todo;
  }

  lemma SkippedTurn(s: State, sid: nat)
    requires Ready(s, sid) && s.sessions[sid].phase.todo != []
    requires !Entitled(Now(s), s.sessions[sid].phase.todo[0], s.sessions[sid].user)
    ensures Enabled(s, Skip(sid))
    ensures var session, t := s.sessions[sid], After(s, Skip(sid));
            && t.members == s.members && t.keeps == s.keeps && t.rows == s.rows && sid in t.sessions
            && t.sessions[sid]
               == Remember(session, session.phase.todo[0], Now(s)).(phase := Sending(session.phase.todo[1..], session.phase.mark))
  {
    AllowedIsEntitled(s, sid);
  }

  /** t is s after one turn of the loop: ready for the next, with the row stamped if the user was entitled to it. */
  ghost predicate Turned(s: State, t: State, sid: nat, at: int)
    requires Ready(s, sid) && s.sessions[sid].phase.todo != []
  {
    var row, user := s.sessions[sid].phase.todo[0], s.sessions[sid].user;
    && Ready(t, sid) && Now(t) == Now(s) && t.sessions[sid].user == user
    && t.sessions[sid].phase.todo == s.sessions[sid].phase.todo[1..]
    && t.rows == StampRows(s.rows, if Entitled(Now(s), row, user) then {row.id} else {}, at)
  }

  lemma TurnIsReady(s: State, t: State, sid: nat, at: int)
    requires Ready(s, sid) && s.sessions[sid].phase.todo != []
    requires var session := s.sessions[sid];
             var row := session.phase.todo[0];
             && t.members == s.members && t.keeps == s.keeps && sid in t.sessions
             && t.rows == StampRows(s.rows, if Entitled(Now(s), row, session.user) then {row.id} else {}, at)
             && t.sessions[sid] == Remember(session, row, Now(s)).(phase := Sending(session.phase.todo[1..], session.phase.mark))
    ensures Turned(s, t, sid, at)
  {
    AllowedIsEntitled(s, sid);
    assert forall r | r in s.sessions[sid].phase.todo[1..] :: r in s.sessions[sid].phase.todo;
  }

  /** One turn of the loop added to a run. */
  lemma OneTurn(start: State, a: seq<Step>, s: State, sid: nat, at: int)
    requires IsRun(start, a) && s == Outcome(start, a) && Ready(s, sid) && s.sessions[sid].phase.todo != []
    ensures var turn := Turn(s.sessions[sid].phase.todo[0], Now(s), s.sessions[sid].user, sid, at);
            IsRun(start, a + turn) && Turned(s, Outcome(start, a + turn), sid, at)
  {
    if Entitled(Now(s), s.sessions[sid].phase.todo[0], s.sessions[sid].user) {
      SentTurn(s, sid, at);
      RunOneMore(start, a, Send(sid));
      RunOneMore(start, a + [Send(sid)], Commit(sid, at));
      assert a + [Send(sid)] + [Commit(sid, at)] == a + [Send(sid), Commit(sid, at)];
      TurnIsReady(s, After(After(s, Send(sid)), Commit(sid, at)), sid, at);
    } else {
      SkippedTurn(s, sid);
      RunOneMore(start, a, Skip(sid));
      assert StampRows(s.rows, {}, at) == s.rows;
      TurnIsReady(s, After(s, Skip(sid)), sid, at);
    }
  }

  lemma StampRowsTwice(m: map<nat, Row>, a: set<nat>, b: set<nat>, at: int)
    ensures StampRows(StampRows(m, a, at), b, at) == StampRows(m, a + b, at)
  {
  }

  lemma {:induction false} SoloRun(start: State, a: seq<Step>, s: State, sid: nat, todo: seq<Row>, ms: set<Membership>,
                                   user: Option<int>, at: int)
    requires IsRun(start, a) && s == Outcome(start, a) && Ready(s, sid)
    requires s.sessions[sid].phase.todo == todo && Now(s) == ms && s.sessions[sid].user == user
    ensures IsRun(start, a + Solo(todo, ms, user, sid, at))
    ensures Outcome(start, a + Solo(todo, ms, user, sid, at)).rows == StampRows(s.rows, EntitledIds(todo, ms, user), at)
    decreases |todo|
  {
    if todo == [] {
      assert a + [] == a && StampRows(s.rows, {}, at) == s.rows;
    } else {
      var b := a + Turn(todo[0], ms, user, sid, at);
      OneTurn(start, a, s, sid, at);
      SoloRun(start, b, Outcome(start, b), sid, todo[1..], ms, user, at);
      SoloIsTurns(a, todo, ms, user, sid, at);
      StampedInTurns(s.rows, todo, ms, user, at);
    }
  }

  lemma SoloIsTurns(a: seq<Step>, todo: seq<Row>, ms: set<Membership>, user: Option<int>, sid: nat, at: int)
    requires todo != []
    ensures a + Turn(todo[0], ms, user, sid, at) + Solo(todo[1..], ms, user, sid, at) == a + Solo(todo, ms, user, sid, at)
  {
  }

  lemma StampedInTurns(rows: map<nat, Row>, todo: seq<Row>, ms: set<Membership>, user: Option<int>, at: int)
    requires todo != []
    ensures var mine := if Entitled(ms, todo[0], user) then {todo[0].id} else {};
            StampRows(StampRows(rows, mine, at), EntitledIds(todo[1..], ms, user), at) == StampRows(rows, EntitledIds(todo, ms, user), at)
  {
    var mine := if Entitled(ms, todo[0], user) then {todo[0].id} else {};
    StampRowsTwice(rows, mine, EntitledIds(todo[1..], ms, user), at);
    assert todo == [todo[0]] + todo[1..];
    assert EntitledIds(todo, ms, user) == mine + EntitledIds(todo[1..], ms, user);
  }

  lemma WorklistIds(todo: seq<Row>, ms: set<Membership>, user: Option<int>)
    requires InOrder(todo)
    ensures Ids(Worklist(todo, ms, user)) == EntitledIds(todo, ms, user)
  {
    WorklistIsExact(todo, ms, user);
  }

  /** The list deliver_pending works through, once the rows from before the last receive are stamped. */
  function Backlog(rows: seq<Row>, uid: string, lastRx: map<string, int>, now: int, keep: Option<int>): seq<Row> {
    Pending(StampReached(rows, {uid}, lastRx, RX_GRACE, now), uid, now, keep)
  }

  function LastOf(uid: string, lastRx: map<string, int>): Option<int> {
    if uid in lastRx then Some(lastRx[uid]) else None
  }

  lemma TrimmedTable(s: State, sid: nat, rows: seq<Row>, lastRx: map<string, int>, now: int)
    requires s.members != [] && s.keeps != [] && In(s, sid, false) && TableIs(rows, s.rows)
    requires s.sessions[sid].uid in lastRx ==> (s.sessions[sid].uid, lastRx[s.sessions[sid].uid]) in s.heard
    ensures var session := s.sessions[sid];
            var trim := Trim(sid, LastOf(session.uid, lastRx), now);
            && Enabled(s, trim)
            && var t := After(s, trim);
               && TableIs(StampReached(rows, {session.uid}, lastRx, RX_GRACE, now), t.rows)
               && t.members == s.members && t.keeps == s.keeps
               && sid in t.sessions && t.sessions[sid] == session.(phase := Trimmed)
  {
    var uid := s.sessions[sid].uid;
    StampIsReached(rows, s.rows, uid, lastRx, RX_GRACE, now);
    if uid in lastRx {
      StampedTableIs(rows, s.rows, Reach(s.rows, uid, lastRx[uid], RX_GRACE), now);
    }
  }

  lemma FetchesBacklog(s: State, sid: nat, rows: seq<Row>, now: int, setting: nat)
    requires s.members != [] && setting < |s.keeps| && In(s, sid, true) && s.sessions[sid].cache == map[] && TableIs(rows, s.rows)
    ensures var todo := Pending(rows, s.sessions[sid].uid, now, s.keeps[setting]);
            var fetch := Fetch(sid, now, setting, todo);
            && Enabled(s, fetch) && InOrder(todo)
            && var t := After(s, fetch);
               && t.rows == s.rows && t.members == s.members && Ready(t, sid)
               && t.sessions[sid].user == s.sessions[sid].user && t.sessions[sid].phase.todo == todo
  {
    PendingIsAList(rows, s, s.sessions[sid].uid, now, s.keeps[setting]);
  }

  lemma TwoSteps(s: State, a: Step, b: Step)
    requires Enabled(s, a) && Enabled(After(s, a), b)
    ensures IsRun(s, [a] + [b]) && Outcome(s, [a] + [b]) == After(After(s, a), b)
  {
    OneStep(s, a);
    RunOneMore(s, [a], b);
  }

  /** Trimming and fetching leave a connection ready to work off the backlog. */
  lemma TrimAndFetch(s: State, sid: nat, rows: seq<Row>, lastRx: map<string, int>, now: int, setting: nat)
    requires s.members != [] && setting < |s.keeps| && In(s, sid, false) && s.sessions[sid].cache == map[] && TableIs(rows, s.rows)
    requires s.sessions[sid].uid in lastRx ==> (s.sessions[sid].uid, lastRx[s.sessions[sid].uid]) in s.heard
    ensures var uid := s.sessions[sid].uid;
            var todo := Backlog(rows, uid, lastRx, now, s.keeps[setting]);
            var steps := [Trim(sid, LastOf(uid, lastRx), now)] + [Fetch(sid, now, setting, todo)];
            && IsRun(s, steps)
            && var t := Outcome(s, steps);
               && TableIs(StampReached(rows, {uid}, lastRx, RX_GRACE, now), t.rows) && Ready(t, sid) && Now(t) == Now(s)
               && t.sessions[sid].user == s.sessions[sid].user && t.sessions[sid].phase.todo == todo && InOrder(todo)
  {
    var uid := s.sessions[sid].uid;
    var settled, todo := StampReached(rows, {uid}, lastRx, RX_GRACE, now), Backlog(rows, uid, lastRx, now, s.keeps[setting]);
    var trim, fetch := Trim(sid, LastOf(uid, lastRx), now), Fetch(sid, now, setting, todo);
    TrimmedTable(s, sid, rows, lastRx, now);
    FetchesBacklog(After(s, trim), sid, settled, now, setting);
    TwoSteps(s, trim, fetch);
  }

  /**
    A connection that trims, fetches and works its list off with nobody in between leaves the table
    exactly as Store.DeliverPending says it does.
  */
  lemma SoloIsDeliverPending(s: State, sid: nat, rows: seq<Row>, lastRx: map<string, int>, now: int)
    requires s.members != [] && s.keeps != [] && In(s, sid, false) && s.sessions[sid].cache == map[] && TableIs(rows, s.rows)
    requires s.sessions[sid].uid in lastRx ==> (s.sessions[sid].uid, lastRx[s.sessions[sid].uid]) in s.heard
    ensures var uid, user := s.sessions[sid].uid, s.sessions[sid].user;
            var settled, todo := StampReached(rows, {uid}, lastRx, RX_GRACE, now), Backlog(rows, uid, lastRx, now, Retention(s));
            var steps := [Trim(sid, LastOf(uid, lastRx), now)] + [Fetch(sid, now, |s.keeps| - 1, todo)] + Solo(todo, Now(s), user, sid, now);
            && IsRun(s, steps)
            && TableIs(StampIds(settled, Ids(Worklist(todo, Now(s), user)), now), Outcome(s, steps).rows)
  {
    var uid, user := s.sessions[sid].uid, s.sessions[sid].user;
    var todo := Backlog(rows, uid, lastRx, now, Retention(s));
    var start := [Trim(sid, LastOf(uid, lastRx), now)] + [Fetch(sid, now, |s.keeps| - 1, todo)];
    TrimAndFetch(s, sid, rows, lastRx, now, |s.keeps| - 1);
    var t := Outcome(s, start);
    SoloRun(s, start, t, sid, todo, Now(s), user, now);
    WorklistIds(todo, Now(s), user);
    StampedTableIs(StampReached(rows, {uid}, lastRx, RX_GRACE, now), t.rows, EntitledIds(todo, Now(s), user), now);
  }
}
