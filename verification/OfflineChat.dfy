/**
  Chat held for devices that are offline (raven/offline_chat.py): the queue table, who may read a
  message, and what queueing, delivering, settling, dropping and purging do to the table.
*/
module OfflineChat {
  import opened Sorting
  import opened Wrappers

  /** Times are microseconds. */
  const SECOND := 1_000_000
  const TCP_USER_TIMEOUT := 30 * SECOND
  const RX_GRACE := 5 * SECOND

  /** A groups_users row; outbound is direction OUT, which is what reading needs. */
  datatype Membership = Membership(user: int, group: int, outbound: bool, enabled: bool)

  /** An offline_chat_messages row. groups: None for <dest> addressing, [] for __ANON__. */
  datatype Row = Row(id: nat, recipient: string, owner: Option<int>, groups: Option<seq<int>>,
                     messageUid: string, xml: string, createdAt: int, deliveredAt: Option<int>)

  // --- who may read ---

  /** _user_reads: the check made at delivery. */
  predicate UserReads(ms: set<Membership>, user: Option<int>, groups: seq<int>) {
    if groups != [] then
      user.Some? && exists m | m in ms :: m.user == user.value && m.group in groups && m.outbound && m.enabled
    else
      user.None? || !exists m | m in ms :: m.user == user.value && m.outbound
  }

  /** _entitled, without the cache. */
  predicate Entitled(ms: set<Membership>, row: Row, user: Option<int>) {
    && (row.owner.Some? ==> row.owner == user)
    && (row.groups.Some? ==> UserReads(ms, user, row.groups.value))
  }

  // --- the order of delivery ---

  predicate Before(a: Row, b: Row) {
    a.createdAt < b.createdAt || (a.createdAt == b.createdAt && a.id < b.id)
  }

  /** Oldest first, rows of one moment by id. */
  ghost predicate InOrder(rows: seq<Row>) {
    forall i, j | 0 <= i < j < |rows| :: Before(rows[i], rows[j])
  }

  lemma InOrderIsSorted(rows: seq<Row>)
    ensures StrictOrder(Before) && (InOrder(rows) <==> IsSorted(Before, rows))
  {
  }

  // --- pending messages ---

  /** One undelivered, unexpired row of the device; keep is the retention in microseconds. */
  predicate IsPending(row: Row, uid: string, now: int, keep: Option<int>) {
    && row.recipient == uid && row.deliveredAt.None?
    && (keep.Some? ==> row.createdAt >= now - keep.value)
  }

  /** pending_messages: those rows ordered by (created_at, id). */
  function Pending(rows: seq<Row>, uid: string, now: int, keep: Option<int>): seq<Row> {
    if rows == [] then []
    else
      var rest := Pending(rows[..|rows| - 1], uid, now, keep);
      var row := rows[|rows| - 1];
      if IsPending(row, uid, now, keep) then Insert(rest, row, Before) else rest
  }

  ghost predicate DistinctIds(rows: seq<Row>) {
    forall i, j | 0 <= i < j < |rows| :: rows[i].id != rows[j].id
  }

  /** The pending list holds exactly the undelivered unexpired rows of the device, each once, oldest first. */
  lemma {:induction false} PendingIsExact(rows: seq<Row>, uid: string, now: int, keep: Option<int>)
    requires DistinctIds(rows)
    ensures forall r :: r in Pending(rows, uid, now, keep) <==> r in rows && IsPending(r, uid, now, keep)
    ensures forall r :: r in Pending(rows, uid, now, keep) <==>
              r in rows && r.recipient == uid && r.deliveredAt.None? && (keep.Some? ==> r.createdAt >= now - keep.value)
    ensures InOrder(Pending(rows, uid, now, keep))
    ensures var list := Pending(rows, uid, now, keep);
            forall i, j | 0 <= i < j < |list| ::
              list[i].createdAt < list[j].createdAt || (list[i].createdAt == list[j].createdAt && list[i].id < list[j].id)
  {
    if rows != [] {
      var front, row := rows[..|rows| - 1], rows[|rows| - 1];
      assert rows == front + [row];
      assert forall i | 0 <= i < |front| :: front[i] == rows[i];
      PendingIsExact(front, uid, now, keep);
      var rest := Pending(front, uid, now, keep);
      if IsPending(row, uid, now, keep) {
        InOrderIsSorted(rest);
        InsertElements(rest, row, Before);
        InsertSorted(rest, row, Before);
        InOrderIsSorted(Insert(rest, row, Before));
      }
    }
  }

  /** The rows a connection of this user is sent: the entitled ones, in pending order. */
  function Worklist(pending: seq<Row>, ms: set<Membership>, user: Option<int>): seq<Row> {
    if pending == [] then []
    else
      var before := Worklist(pending[..|pending| - 1], ms, user);
      var row := pending[|pending| - 1];
      if Entitled(ms, row, user) then before + [row] else before
  }

  lemma {:induction false} WorklistIsExact(pending: seq<Row>, ms: set<Membership>, user: Option<int>)
    requires InOrder(pending)
    ensures forall r :: r in Worklist(pending, ms, user) <==> r in pending && Entitled(ms, r, user)
    ensures InOrder(Worklist(pending, ms, user))
  {
    if pending != [] {
      var front, row := pending[..|pending| - 1], pending[|pending| - 1];
      assert pending == front + [row];
      WorklistIsExact(front, ms, user);
      var before := Worklist(front, ms, user);
      forall r | r in before
        ensures Before(r, row)
      {
        var k :| 0 <= k < |front| && front[k] == r;
        assert Before(pending[k], pending[|pending| - 1]);
      }
    }
  }

  /** Rows sent from the head of a worklist go in order of age, and are all older than those that are left. */
  lemma HeadIsOldest(work: seq<Row>, sent: seq<Row>)
    requires InOrder(work) && sent <= work
    ensures forall i, j | 0 <= i < j < |sent| ::
              sent[i].createdAt < sent[j].createdAt || (sent[i].createdAt == sent[j].createdAt && sent[i].id < sent[j].id)
    ensures forall s, r | s in sent && r in work && r !in sent ::
              s.createdAt < r.createdAt || (s.createdAt == r.createdAt && s.id < r.id)
  {
    forall i, j | 0 <= i < j < |sent|
      ensures sent[i].createdAt < sent[j].createdAt || (sent[i].createdAt == sent[j].createdAt && sent[i].id < sent[j].id)
    {
      assert Before(work[i], work[j]);
    }
    forall s, r | s in sent && r in work && r !in sent
      ensures s.createdAt < r.createdAt || (s.createdAt == r.createdAt && s.id < r.id)
    {
      var i :| 0 <= i < |sent| && sent[i] == s;
      assert work == sent + work[|sent|..];
      var j :| 0 <= j < |work| - |sent| && work[|sent|..][j] == r;
      assert Before(work[i], work[|sent| + j]);
    }
  }

  // --- changes to the table ---

  /** An undelivered row of one of these devices, which the server heard from more than slack after it. */
  predicate Reached(row: Row, uids: set<string>, lastRx: map<string, int>, slack: int) {
    && row.deliveredAt.None? && row.recipient in uids && row.recipient in lastRx
    && row.createdAt < lastRx[row.recipient] - slack
  }

  /** UPDATE ... SET delivered_at = at on the reached rows. */
  function StampReached(rows: seq<Row>, uids: set<string>, lastRx: map<string, int>, slack: int, at: int): (r: seq<Row>)
    ensures |r| == |rows|
    ensures forall i | 0 <= i < |rows| ::
              r[i] == if Reached(rows[i], uids, lastRx, slack) then rows[i].(deliveredAt := Some(at)) else rows[i]
  {
    seq(|rows|, i requires 0 <= i < |rows| =>
      if Reached(rows[i], uids, lastRx, slack) then rows[i].(deliveredAt := Some(at)) else rows[i])
  }

  /** The rows with these ids stamped delivered. */
  function StampIds(rows: seq<Row>, ids: set<nat>, at: int): (r: seq<Row>)
    ensures |r| == |rows|
    ensures forall i | 0 <= i < |rows| ::
              r[i] == if rows[i].id in ids then rows[i].(deliveredAt := Some(at)) else rows[i]
  {
    seq(|rows|, i requires 0 <= i < |rows| =>
      if rows[i].id in ids then rows[i].(deliveredAt := Some(at)) else rows[i])
  }

  function Ids(rows: seq<Row>): set<nat> {
    set r | r in rows :: r.id
  }

  /** Rows that differ only in their stamps. */
  ghost predicate SameButStamps(a: seq<Row>, b: seq<Row>) {
    |a| == |b| && forall i | 0 <= i < |a| :: a[i].(deliveredAt := b[i].deliveredAt) == b[i]
  }

  lemma StampsKeepTheTable(a: seq<Row>, b: seq<Row>, next: nat)
    requires SameButStamps(a, b) && SoundTable(a, next)
    ensures SoundTable(b, next)
  {
  }

  function Dropped(rows: seq<Row>, uids: set<string>): seq<Row> {
    if rows == [] then []
    else if rows[0].recipient in uids && rows[0].deliveredAt.None? then Dropped(rows[1..], uids)
    else [rows[0]] + Dropped(rows[1..], uids)
  }

  /** An euds row as far as chat looks at it. */
  datatype Device = Device(uid: string, callsign: Option<string>, user: Option<int>, team: Option<int>,
                           platform: string, federated: bool)

  /** NO_QUEUE_PLATFORMS: these never get a dms or groups queue. */
  const NO_QUEUE_PLATFORMS := {"OpenTAK ICU", "Meshtastic", "DMRCOT"}

  predicate GetsQueue(device: Device) {
    device.platform !in NO_QUEUE_PLATFORMS && !device.federated
  }

  datatype Message = Message(uid: string, xml: string, groups: Option<seq<int>>, at: int)

  predicate HasCopy(rows: seq<Row>, uid: string, messageUid: string) {
    exists r | r in rows :: r.recipient == uid && r.messageUid == messageUid
  }

  /** A row for each queueable device in order, except those with a copy already. */
  function Copies(recipients: seq<Device>, m: Message, already: set<string>, next: nat): seq<Row> {
    if recipients == [] then []
    else if GetsQueue(recipients[0]) && recipients[0].uid !in already then
      [Row(next, recipients[0].uid, recipients[0].user, m.groups, m.uid, m.xml, m.at, None)]
      + Copies(recipients[1..], m, already, next + 1)
    else Copies(recipients[1..], m, already, next)
  }

  function Holders(rows: seq<Row>, messageUid: string): set<string> {
    set r | r in rows && r.messageUid == messageUid :: r.recipient
  }

  ghost predicate DistinctUids(recipients: seq<Device>) {
    forall i, j | 0 <= i < j < |recipients| :: recipients[i].uid != recipients[j].uid
  }

  ghost predicate IsCopyFor(row: Row, r: Device, m: Message) {
    && GetsQueue(r) && row == Row(row.id, r.uid, r.user, m.groups, m.uid, m.xml, m.at, None)
  }

  /** Every row made is a copy for a queueable device that had none. */
  lemma {:induction false} CopiesAreForRecipients(recipients: seq<Device>, m: Message, already: set<string>, next: nat, k: nat)
    requires k < |Copies(recipients, m, already, next)|
    ensures var row := Copies(recipients, m, already, next)[k];
            && row.id == next + k && row.messageUid == m.uid
            && exists r | r in recipients :: IsCopyFor(row, r, m) && r.uid !in already
  {
    var head, tail := recipients[0], recipients[1..];
    assert recipients == [head] + tail;
    var row := Copies(recipients, m, already, next)[k];
    if GetsQueue(head) && head.uid !in already {
      if k == 0 {
        assert IsCopyFor(row, head, m);
      } else {
        CopiesAreForRecipients(tail, m, already, next + 1, k - 1);
        var r :| r in tail && IsCopyFor(row, r, m) && r.uid !in already;
        assert r in recipients;
      }
    } else {
      CopiesAreForRecipients(tail, m, already, next, k);
      var r :| r in tail && IsCopyFor(row, r, m) && r.uid !in already;
      assert r in recipients;
    }
  }

  lemma {:induction false} CopiesAreDistinct(recipients: seq<Device>, m: Message, already: set<string>, next: nat, k: nat, l: nat)
    requires DistinctUids(recipients) && k < l < |Copies(recipients, m, already, next)|
    ensures Copies(recipients, m, already, next)[k].recipient != Copies(recipients, m, already, next)[l].recipient
  {
    var head, tail := recipients[0], recipients[1..];
    assert forall i | 0 <= i < |tail| :: tail[i] == recipients[i + 1];
    if GetsQueue(head) && head.uid !in already {
      if k == 0 {
        CopiesAreForRecipients(tail, m, already, next + 1, l - 1);
      } else {
        CopiesAreDistinct(tail, m, already, next + 1, k - 1, l - 1);
      }
    } else {
      CopiesAreDistinct(tail, m, already, next, k, l);
    }
  }

  /** Every queueable device without a copy gets one. */
  lemma {:induction false} EachGetsACopy(recipients: seq<Device>, m: Message, already: set<string>, next: nat, j: nat)
    requires j < |recipients| && GetsQueue(recipients[j]) && recipients[j].uid !in already
    ensures exists row | row in Copies(recipients, m, already, next) :: IsCopyFor(row, recipients[j], m)
  {
    var head, tail := recipients[0], recipients[1..];
    var takes := GetsQueue(head) && head.uid !in already;
    if j == 0 {
      assert IsCopyFor(Copies(recipients, m, already, next)[0], head, m);
    } else {
      EachGetsACopy(tail, m, already, if takes then next + 1 else next, j - 1);
    }
  }

  /** Queueing keeps one copy per device and message, and afterwards exactly the addressed devices are added. */
  lemma QueueingIsExact(rows: seq<Row>, recipients: seq<Device>, m: Message, next: nat)
    requires SoundTable(rows, next) && DistinctUids(recipients)
    ensures var made := Copies(recipients, m, Holders(rows, m.uid), next);
            && SoundTable(rows + made, next + |made|)
            && forall u :: HasCopy(rows + made, u, m.uid) <==>
                 HasCopy(rows, u, m.uid) || exists r | r in recipients :: r.uid == u && GetsQueue(r)
  {
    var already := Holders(rows, m.uid);
    var made := Copies(recipients, m, already, next);
    forall k | 0 <= k < |made|
      ensures made[k].id == next + k && made[k].messageUid == m.uid
      ensures exists r | r in recipients :: IsCopyFor(made[k], r, m) && r.uid !in already
    {
      CopiesAreForRecipients(recipients, m, already, next, k);
    }
    forall k, l | 0 <= k < l < |made| ensures made[k].recipient != made[l].recipient {
      CopiesAreDistinct(recipients, m, already, next, k, l);
    }
    assert forall u :: u in already <==> HasCopy(rows, u, m.uid);
    forall i, j | 0 <= i < |rows| && 0 <= j < |made|
      ensures rows[i].id != made[j].id
      ensures !(rows[i].recipient == made[j].recipient && rows[i].messageUid == made[j].messageUid)
    {
      assert rows[i] in rows;
    }
    forall u
      ensures HasCopy(rows + made, u, m.uid) <==>
              HasCopy(rows, u, m.uid) || exists r | r in recipients :: r.uid == u && GetsQueue(r)
    {
      if HasCopy(rows + made, u, m.uid) {
        var row :| row in rows + made && row.recipient == u && row.messageUid == m.uid;
        assert row in rows || row in made;
      }
      if r :| r in recipients && r.uid == u && GetsQueue(r) && !HasCopy(rows, u, m.uid) {
        var j :| 0 <= j < |recipients| && recipients[j] == r;
        EachGetsACopy(recipients, m, already, next, j);
        var row :| row in made && IsCopyFor(row, r, m);
        assert row in rows + made;
      }
      if HasCopy(rows, u, m.uid) {
        var row :| row in rows && row.recipient == u && row.messageUid == m.uid;
        assert row in rows + made;
      }
    }
  }

  /** uq_offline_chat_recipient_message, and ids from a sequence. */
  ghost predicate SoundTable(rows: seq<Row>, next: nat) {
    && DistinctIds(rows)
    && (forall i, j | 0 <= i < j < |rows| ::
          !(rows[i].recipient == rows[j].recipient && rows[i].messageUid == rows[j].messageUid))
    && forall r | r in rows :: r.id < next
  }

  /** How many entries a loop that stops at failAt sends. */
  function Prefix(work: seq<Row>, failAt: Option<nat>): nat {
    if failAt.Some? && failAt.value < |work| then failAt.value else |work|
  }

  ghost predicate CacheRight(cache: map<seq<int>, bool>, ms: set<Membership>, user: Option<int>) {
    forall g | g in cache :: cache[g] == UserReads(ms, user, g)
  }

  /** known holds the uids that have a euds row, lastRx its last_rx_at. */
  class Store {
    var rows: seq<Row>
    var nextId: nat
    var known: set<string>
    var lastRx: map<string, int>
    var memberships: set<Membership>
    var keep: Option<int>

    constructor (known: set<string>, memberships: set<Membership>, keep: Option<int>)
      ensures rows == [] && this.known == known && lastRx == map[] && Valid()
      ensures this.memberships == memberships && this.keep == keep
    {
      rows, nextId, lastRx := [], 0, map[];
      this.known, this.memberships, this.keep := known, memberships, keep;
    }

    ghost predicate Valid()
      reads this
    {
      SoundTable(rows, nextId)
    }

    /** queue_offline_chat from the addressed devices on. */
    method Queue(message: Message, recipients: seq<Device>) returns (queued: nat)
      requires Valid() && DistinctUids(recipients)
      modifies this`rows, this`nextId
      ensures Valid()
      ensures rows == old(rows) + Copies(recipients, message, Holders(old(rows), message.uid), old(nextId))
      ensures queued == |rows| - |old(rows)|
    {
      var already := Holders(rows, message.uid);
      ghost var all := Copies(recipients, message, already, nextId);
      ghost var before, next := rows, nextId;
      queued := 0;
      assert recipients[0..] == recipients;
      for k := 0 to |recipients|
        invariant rows + Copies(recipients[k..], message, already, nextId) == old(rows) + all
        invariant |rows| == |old(rows)| + queued && nextId == old(nextId) + queued
      {
        var r := recipients[k];
        assert recipients[k..] == [r] + recipients[k + 1..];
        if GetsQueue(r) && r.uid !in already {
          rows := rows + [Row(nextId, r.uid, r.user, message.groups, message.uid, message.xml, message.at, None)];
          nextId, queued := nextId + 1, queued + 1;
        }
      }
      assert rows == before + all;
      QueueingIsExact(before, recipients, message, next);
    }

    /**
      record_rx. From now on exactly the undelivered rows more than the slack older than this receive
      count as reached, if the device has a euds row; other devices' rows count as they did.
    */
    method RecordRx(uid: string, at: int)
      modifies this`lastRx
      ensures forall row: Row, slack: int :: Reached(row, {uid}, lastRx, slack) <==>
                if uid in known then row.deliveredAt.None? && row.recipient == uid && row.createdAt < at - slack
                else Reached(row, {uid}, old(lastRx), slack)
      ensures forall row: Row, slack: int, u: string | u != uid ::
                Reached(row, {u}, lastRx, slack) == Reached(row, {u}, old(lastRx), slack)
    {
      if uid in known {
        lastRx := lastRx[uid := at];
      }
    }

    /** _entitled, which looks the group check up in the cache and fills it. */
    method CheckEntitled(row: Row, user: Option<int>, cache: map<seq<int>, bool>)
      returns (entitled: bool, filled: map<seq<int>, bool>)
      requires CacheRight(cache, memberships, user)
      ensures CacheRight(filled, memberships, user)
      ensures entitled == Entitled(memberships, row, user)
    {
      filled := cache;
      if row.owner.Some? && row.owner != user {
        return false, filled;
      }
      if row.groups.Some? {
        if row.groups.value !in filled {
          filled := filled[row.groups.value := UserReads(memberships, user, row.groups.value)];
        }
        return filled[row.groups.value], filled;
      }
      return true, filled;
    }

    /**
      deliver_pending: failAt is the send that raises, if one does. Exactly the entitled pending
      rows before it are sent, oldest first, and exactly those are stamped; the rest is untouched.
    */
    method DeliverPending(uid: string, user: Option<int>, now: int, failAt: Option<nat>)
      returns (sent: seq<Row>, failed: bool)
      requires Valid()
      modifies this`rows
      ensures Valid()
      ensures var settled := StampReached(old(rows), {uid}, lastRx, RX_GRACE, now);
              var work := Worklist(Pending(settled, uid, now, keep), memberships, user);
              && sent == work[..Prefix(work, failAt)]
              && failed == (Prefix(work, failAt) < |work|)
              && rows == StampIds(settled, Ids(sent), now)
      ensures var work := Worklist(Pending(StampReached(old(rows), {uid}, lastRx, RX_GRACE, now), uid, now, keep), memberships, user);
              forall i, j | 0 <= i < j < |work| ::
                work[i].createdAt < work[j].createdAt || (work[i].createdAt == work[j].createdAt && work[i].id < work[j].id)
    {
      DeliveredInOrder(rows, nextId, uid, lastRx, now, keep, memberships, user);
      rows := StampReached(rows, {uid}, lastRx, RX_GRACE, now);
      ghost var settled := rows;
      StampsKeepTheTable(old(rows), settled, nextId);
      sent, failed := SendPending(Pending(rows, uid, now, keep), user, now, failAt);
      StampsKeepTheTable(settled, rows, nextId);
    }

    /** The loop of deliver_pending: each row is stamped and committed as soon as it has been written. */
    method SendPending(pending: seq<Row>, user: Option<int>, now: int, failAt: Option<nat>)
      returns (sent: seq<Row>, failed: bool)
      modifies this`rows
      ensures var work := Worklist(pending, memberships, user);
              && sent == work[..Prefix(work, failAt)]
              && failed == (Prefix(work, failAt) < |work|)
      ensures rows == StampIds(old(rows), Ids(sent), now)
    {
      sent, failed := [], false;
      var cache: map<seq<int>, bool> := map[];
      assert rows == StampIds(rows, Ids(sent), now);
      var i := 0;
      while i < |pending| && !failed
        invariant i <= |pending|
        invariant sent == Worklist(pending[..i], memberships, user)
        invariant failAt.Some? ==> |sent| <= failAt.value
        invariant failed ==> i < |pending| && failAt == Some(|sent|) && Entitled(memberships, pending[i], user)
        invariant rows == StampIds(old(rows), Ids(sent), now)
        invariant CacheRight(cache, memberships, user)
        decreases |pending| - i, !failed
      {
        var row := pending[i];
        assert pending[..i + 1][..i] == pending[..i];
        var entitled;
        entitled, cache := CheckEntitled(row, user, cache);
        if entitled && failAt == Some(|sent|) {
          failed := true;
        } else {
          if entitled {
            StampOneMore(old(rows), sent, row, now);
            rows := StampIds(rows, {row.id}, now);
            sent := sent + [row];
          }
          i := i + 1;
        }
      }
      PrefixOfWorklist(pending, i, memberships, user);
    }

    /** settle_live_deliveries for the devices whose row says Connected. */
    method Settle(connected: set<string>, now: int) returns (settled: nat)
      requires Valid()
      modifies this`rows
      ensures Valid() && rows == StampReached(old(rows), connected, lastRx, TCP_USER_TIMEOUT, now)
      ensures settled == Count(old(rows), rows)
    {
      settled := 0;
      var todo := connected;
      ghost var done: set<string> := {};
      SameCount(rows);
      while todo != {}
        invariant done + todo == connected
        invariant rows == StampReached(old(rows), done, lastRx, TCP_USER_TIMEOUT, now)
        invariant settled == Count(old(rows), rows)
        decreases |todo|
      {
        var uid :| uid in todo;
        if uid in lastRx {
          var stamped := StampReached(rows, {uid}, lastRx, TCP_USER_TIMEOUT, now);
          StampReachedJoins(old(rows), done, {uid}, lastRx, TCP_USER_TIMEOUT, now);
          settled := settled + Count(rows, stamped);
          CountAdds(old(rows), rows, stamped);
          rows := stamped;
        } else {
          StampReachedJoins(old(rows), done, {uid}, lastRx, TCP_USER_TIMEOUT, now);
          assert StampReached(rows, {uid}, lastRx, TCP_USER_TIMEOUT, now) == rows;
        }
        todo, done := todo - {uid}, done + {uid};
      }
      assert done == connected;
      StampsKeepTheTable(old(rows), rows, nextId);
    }

    /** drop_queue: the undelivered rows of these devices go. */
    method DropQueue(uids: set<string>) returns (deleted: nat)
      requires Valid()
      modifies this`rows
      ensures Valid() && rows == Dropped(old(rows), uids) && deleted == |old(rows)| - |rows|
    {
      DroppedMembers(rows, uids);
      DroppedIsSound(rows, uids, nextId);
      deleted := |rows| - |Dropped(rows, uids)|;
      rows := Dropped(rows, uids);
    }
  }

  lemma WorklistInOrder(rows: seq<Row>, uid: string, now: int, keep: Option<int>, ms: set<Membership>, user: Option<int>)
    requires DistinctIds(rows)
    ensures var work := Worklist(Pending(rows, uid, now, keep), ms, user);
            && InOrder(work)
            && forall i, j | 0 <= i < j < |work| ::
                 work[i].createdAt < work[j].createdAt || (work[i].createdAt == work[j].createdAt && work[i].id < work[j].id)
  {
    PendingIsExact(rows, uid, now, keep);
    WorklistIsExact(Pending(rows, uid, now, keep), ms, user);
    var work := Worklist(Pending(rows, uid, now, keep), ms, user);
    assert forall i, j | 0 <= i < j < |work| :: Before(work[i], work[j]);
  }

  lemma DeliveredInOrder(rows: seq<Row>, next: nat, uid: string, lastRx: map<string, int>, now: int, keep: Option<int>,
                         ms: set<Membership>, user: Option<int>)
    requires SoundTable(rows, next)
    ensures var work := Worklist(Pending(StampReached(rows, {uid}, lastRx, RX_GRACE, now), uid, now, keep), ms, user);
            forall i, j | 0 <= i < j < |work| ::
              work[i].createdAt < work[j].createdAt || (work[i].createdAt == work[j].createdAt && work[i].id < work[j].id)
  {
    var settled := StampReached(rows, {uid}, lastRx, RX_GRACE, now);
    StampsKeepTheTable(rows, settled, next);
    WorklistInOrder(settled, uid, now, keep, ms, user);
  }

  /** The first n rows of a worklist: entitled pending ones in order of age, all older than those that are left. */
  lemma SentOldestFirst(rows: seq<Row>, uid: string, now: int, keep: Option<int>, ms: set<Membership>, user: Option<int>, n: nat)
    requires DistinctIds(rows) && n <= |Worklist(Pending(rows, uid, now, keep), ms, user)|
    ensures var work := Worklist(Pending(rows, uid, now, keep), ms, user);
            var sent := work[..n];
            && (forall i, j | 0 <= i < j < n ::
                  sent[i].createdAt < sent[j].createdAt || (sent[i].createdAt == sent[j].createdAt && sent[i].id < sent[j].id))
            && (forall r | r in sent ::
                  r in rows && r.recipient == uid && r.deliveredAt.None? && Entitled(ms, r, user)
                  && (keep.Some? ==> r.createdAt >= now - keep.value))
            && forall r | r in rows && r.recipient == uid && r.deliveredAt.None? && Entitled(ms, r, user)
                          && (keep.Some? ==> r.createdAt >= now - keep.value) && r !in sent ::
                 && n < |work|
                 && forall s | s in sent :: s.createdAt < r.createdAt || (s.createdAt == r.createdAt && s.id < r.id)
  {
    var pending := Pending(rows, uid, now, keep);
    PendingIsExact(rows, uid, now, keep);
    WorklistIsExact(pending, ms, user);
    WorklistInOrder(rows, uid, now, keep, ms, user);
    HeadIsOldest(Worklist(pending, ms, user), Worklist(pending, ms, user)[..n]);
    assert n == |Worklist(pending, ms, user)| ==> Worklist(pending, ms, user)[..n] == Worklist(pending, ms, user);
  }

  lemma StampReachedJoins(rows: seq<Row>, a: set<string>, b: set<string>, lastRx: map<string, int>, slack: int, at: int)
    ensures StampReached(StampReached(rows, a, lastRx, slack, at), b, lastRx, slack, at)
            == StampReached(rows, a + b, lastRx, slack, at)
  {
  }

  /** How many rows one table has stamped that the other has not. */
  function Count(before: seq<Row>, after: seq<Row>): nat
    requires |before| == |after|
  {
    if before == [] then 0
    else Count(before[..|before| - 1], after[..|before| - 1])
         + (if before[|before| - 1].deliveredAt.None? && after[|before| - 1].deliveredAt.Some? then 1 else 0)
  }

  lemma {:induction false} SameCount(rows: seq<Row>)
    ensures Count(rows, rows) == 0
  {
    if rows != [] {
      SameCount(rows[..|rows| - 1]);
    }
  }

  lemma {:induction false} CountAdds(a: seq<Row>, b: seq<Row>, c: seq<Row>)
    requires |a| == |b| == |c|
    requires forall i | 0 <= i < |a| :: (a[i].deliveredAt.Some? ==> b[i].deliveredAt.Some?)
                                        && (b[i].deliveredAt.Some? ==> c[i].deliveredAt.Some?)
    ensures Count(a, c) == Count(a, b) + Count(b, c)
  {
    if a != [] {
      var n := |a| - 1;
      CountAdds(a[..n], b[..n], c[..n]);
    }
  }

  /** Exactly the undelivered rows of those devices go. */
  lemma {:induction false} DroppedMembers(rows: seq<Row>, uids: set<string>)
    ensures |Dropped(rows, uids)| <= |rows|
    ensures forall r :: r in Dropped(rows, uids) <==> r in rows && !(r.recipient in uids && r.deliveredAt.None?)
  {
    if rows != [] {
      DroppedMembers(rows[1..], uids);
      assert rows == [rows[0]] + rows[1..];
    }
  }

  lemma TailIsSound(rows: seq<Row>, next: nat)
    requires SoundTable(rows, next) && rows != []
    ensures SoundTable(rows[1..], next)
    ensures forall r | r in rows[1..] :: r.id != rows[0].id && !(r.recipient == rows[0].recipient && r.messageUid == rows[0].messageUid)
  {
  }

  lemma ConsIsSound(row: Row, rest: seq<Row>, next: nat)
    requires SoundTable(rest, next) && row.id < next
    requires forall r | r in rest :: r.id != row.id && !(r.recipient == row.recipient && r.messageUid == row.messageUid)
    ensures SoundTable([row] + rest, next)
  {
  }

  lemma {:induction false} DroppedIsSound(rows: seq<Row>, uids: set<string>, next: nat)
    requires SoundTable(rows, next)
    ensures SoundTable(Dropped(rows, uids), next)
  {
    if rows != [] {
      TailIsSound(rows, next);
      DroppedIsSound(rows[1..], uids, next);
      DroppedMembers(rows[1..], uids);
      assert rows[0] in rows;
      ConsIsSound(rows[0], Dropped(rows[1..], uids), next);
    }
  }

  /** Stopping at the first failing send leaves a prefix of the worklist. */
  lemma {:induction false} PrefixOfWorklist(pending: seq<Row>, i: nat, ms: set<Membership>, user: Option<int>)
    requires i <= |pending|
    ensures var sent, work := Worklist(pending[..i], ms, user), Worklist(pending, ms, user);
            && |sent| <= |work| && work[..|sent|] == sent
            && (i == |pending| ==> sent == work)
            && (i < |pending| && Entitled(ms, pending[i], user) ==> |sent| < |work|)
    decreases |pending|
  {
    var n := |pending| - 1;
    if i == n + 1 {
      assert pending[..i] == pending;
    } else {
      var front := pending[..n];
      assert front[..i] == pending[..i];
      PrefixOfWorklist(front, i, ms, user);
    }
  }

  /** A receive decides the device's next backlog: exactly its pending rows from the grace before it on. */
  lemma ReceiveDecidesBacklog(rows: seq<Row>, uid: string, lastRx: map<string, int>, now: int, keep: Option<int>, next: nat)
    requires SoundTable(rows, next) && uid in lastRx
    ensures forall r :: r in Pending(StampReached(rows, {uid}, lastRx, RX_GRACE, now), uid, now, keep) <==>
              r in rows && IsPending(r, uid, now, keep) && r.createdAt >= lastRx[uid] - RX_GRACE
  {
    var settled := StampReached(rows, {uid}, lastRx, RX_GRACE, now);
    StampsKeepTheTable(rows, settled, next);
    PendingIsExact(settled, uid, now, keep);
    forall r | r in rows && IsPending(r, uid, now, keep) && r.createdAt >= lastRx[uid] - RX_GRACE
      ensures r in settled
    {
      var i :| 0 <= i < |rows| && rows[i] == r;
      assert settled[i] == r;
    }
    forall r | r in settled && IsPending(r, uid, now, keep)
      ensures r in rows && r.createdAt >= lastRx[uid] - RX_GRACE
    {
      var i :| 0 <= i < |settled| && settled[i] == r;
      assert rows[i] == r;
    }
  }

  /** After a delivery that ran to its end, what is still pending is only what this user may not read. */
  lemma FullDeliveryLeavesOnlyOthers(rows: seq<Row>, uid: string, now: int, keep: Option<int>,
                                     ms: set<Membership>, user: Option<int>, next: nat)
    requires SoundTable(rows, next)
    ensures var after := StampIds(rows, Ids(Worklist(Pending(rows, uid, now, keep), ms, user)), now);
            forall r | r in Pending(after, uid, now, keep) :: !Entitled(ms, r, user)
  {
    var pending := Pending(rows, uid, now, keep);
    var work := Worklist(pending, ms, user);
    var after := StampIds(rows, Ids(work), now);
    PendingIsExact(rows, uid, now, keep);
    WorklistIsExact(pending, ms, user);
    StampsKeepTheTable(rows, after, next);
    PendingIsExact(after, uid, now, keep);
    forall r | r in Pending(after, uid, now, keep) ensures !Entitled(ms, r, user) {
      var i :| 0 <= i < |after| && after[i] == r;
      assert r == rows[i] && r in rows;
      assert r.id !in Ids(work);
    }
  }

  lemma StampOneMore(rows: seq<Row>, sent: seq<Row>, row: Row, at: int)
    ensures StampIds(StampIds(rows, Ids(sent), at), {row.id}, at) == StampIds(rows, Ids(sent + [row]), at)
  {
  }
}
