/**
  Upserts of several processes at once (upsert_mission_uid_and_change in
  raven/models/MissionChange.py, its change record): a call looks for the ADD_CONTENT row and writes
  in two steps, and any number of calls may have looked without having written yet.
*/
module MissionRuns {
  import opened Wrappers
  import opened MissionUpsert

  /** A call between its two steps: the row it found, and how many events the log held when it looked. */
  datatype Looked = Looked(call: Call, found: Option<nat>, at: nat)

  /** Call who looked, and whether it found nothing; call who committed its change record. */
  datatype Event = DidLook(who: nat, call: Call, empty: bool) | DidWrite(who: nat, call: Call)

  /** changes and nextId are the table; looked are the calls under way, calls numbers them. */
  datatype State = State(changes: map<nat, Change>, nextId: nat, looked: map<nat, Looked>, calls: nat, log: seq<Event>)

  datatype Step = Look(call: Call, found: Option<nat>) | Write(who: nat)

  /** .first() gives one of the rows if there is one. */
  predicate Enabled(s: State, step: Step) {
    match step
    case Look(call, found) =>
      if HasAdd(s.changes, call) then found.Some? && found.value in s.changes && IsAddOf(s.changes[found.value], call.mission, call.item)
      else found.None?
    case Write(who) => who in s.looked
  }

  function Record(call: Call): Change {
    Change(call.mission, call.item, AddContent, call.creator, call.timestamp, call.serverTime)
  }

  function After(s: State, step: Step): State
    requires Enabled(s, step)
  {
    match step
    case Look(call, found) =>
      s.(looked := s.looked[s.calls := Looked(call, found, |s.log|)], calls := s.calls + 1,
         log := s.log + [DidLook(s.calls, call, found.None?)])
    case Write(who) =>
      var l := s.looked[who];
      var t := s.(looked := s.looked - {who}, log := s.log + [DidWrite(who, l.call)]);
      if l.found.Some? then t.(changes := s.changes[l.found.value := Record(l.call)])
      else t.(changes := s.changes[s.nextId := Record(l.call)], nextId := s.nextId + 1)
  }

  ghost predicate IsRun(s: State, steps: seq<Step>)
    decreases |steps|
  {
    steps == [] || (Enabled(s, steps[0]) && IsRun(After(s, steps[0]), steps[1..]))
  }

  ghost function Outcome(s: State, steps: seq<Step>): State
    requires IsRun(s, steps)
    decreases |steps|
  {
    if steps == [] then s else Outcome(After(s, steps[0]), steps[1..])
  }

  /** A table with no call under way. */
  function Start(changes: map<nat, Change>, nextId: nat): State {
    State(changes, nextId, map[], 0, [])
  }

  predicate SameItem(a: Call, b: Call) {
    a.mission == b.mission && a.item == b.item
  }

  /** Since position p, somebody wrote for this mission and item. */
  ghost predicate WrittenSince(log: seq<Event>, p: nat, call: Call) {
    exists q :: p < q < |log| && log[q].DidWrite? && SameItem(log[q].call, call)
  }

  /** At p a call found nothing, at r it writes, and another wrote for the same item in between. */
  ghost predicate OverlapAt(log: seq<Event>, p: nat, q: nat, r: nat) {
    && p < q < r < |log| && log[p].DidLook? && log[p].empty
    && log[q].DidWrite? && SameItem(log[q].call, log[p].call) && log[r] == DidWrite(log[p].who, log[p].call)
  }

  ghost predicate Overlapped(log: seq<Event>) {
    exists p: nat, q: nat, r: nat :: OverlapAt(log, p, q, r)
  }

  // --- what every step keeps ---

  /** A call under way: its look is in the log, what it found is still there, and the table has its row iff it found one or one was written since. */
  ghost predicate LookedSound(s: State, who: nat, l: Looked) {
    && who < s.calls && l.at < |s.log| && s.log[l.at] == DidLook(who, l.call, l.found.None?)
    && (l.found.Some? ==> l.found.value in s.changes && IsAddOf(s.changes[l.found.value], l.call.mission, l.call.item))
    && (l.found.None? ==> (HasAdd(s.changes, l.call) <==> WrittenSince(s.log, l.at, l.call)))
  }

  ghost predicate LogSound(s: State) {
    && (forall k | 0 <= k < |s.log| :: s.log[k].who < s.calls)
    && (forall k | 0 <= k < |s.log| && s.log[k].DidLook? && s.log[k].who in s.looked :: k == s.looked[s.log[k].who].at)
    && (forall k | 0 <= k < |s.log| && s.log[k].DidWrite? :: s.log[k].who !in s.looked)
  }

  ghost predicate Invariant(s: State) {
    && (forall id | id in s.changes :: id < s.nextId)
    && (forall who | who in s.looked :: LookedSound(s, who, s.looked[who]))
    && LogSound(s)
    && (OneAddEach(s.changes) <==> !Overlapped(s.log))
  }

  lemma WrittenSinceAppend(log: seq<Event>, e: Event, p: nat, call: Call)
    requires p < |log|
    ensures WrittenSince(log + [e], p, call) <==> WrittenSince(log, p, call) || (e.DidWrite? && SameItem(e.call, call))
  {
    var longer := log + [e];
    if WrittenSince(log, p, call) {
      var q :| p < q < |log| && log[q].DidWrite? && SameItem(log[q].call, call);
      assert longer[q] == log[q];
    }
    if e.DidWrite? && SameItem(e.call, call) {
      assert longer[|log|] == e;
    }
  }

  /** e is the write of the call that found nothing at p, and somebody wrote for its item since. */
  ghost predicate Doubles(log: seq<Event>, p: nat, e: Event) {
    p < |log| && log[p].DidLook? && log[p].empty && e == DidWrite(log[p].who, log[p].call) && WrittenSince(log, p, log[p].call)
  }

  lemma OverlappedAppend(log: seq<Event>, e: Event)
    ensures Overlapped(log) ==> Overlapped(log + [e])
    ensures Overlapped(log + [e]) ==> Overlapped(log) || exists p: nat :: Doubles(log, p, e)
    ensures (exists p: nat :: Doubles(log, p, e)) ==> Overlapped(log + [e])
  {
    var longer := log + [e];
    if Overlapped(log) {
      var p: nat, q: nat, r: nat :| OverlapAt(log, p, q, r);
      assert OverlapAt(longer, p, q, r);
    }
    if Overlapped(longer) {
      var p: nat, q: nat, r: nat :| OverlapAt(longer, p, q, r);
      if r < |log| {
        assert OverlapAt(log, p, q, r);
      } else {
        assert log[p] == longer[p] && log[q] == longer[q];
        assert Doubles(log, p, e);
      }
    }
    if p: nat :| Doubles(log, p, e) {
      var q :| p < q < |log| && log[q].DidWrite? && SameItem(log[q].call, log[p].call);
      assert OverlapAt(longer, p, q, |log|);
    }
  }

  lemma LookKeeps(s: State, step: Step)
    requires Invariant(s) && Enabled(s, step) && step.Look?
    ensures Invariant(After(s, step))
  {
    var t, e := After(s, step), DidLook(s.calls, step.call, step.found.None?);
    OverlappedAppend(s.log, e);
    forall who | who in t.looked ensures LookedSound(t, who, t.looked[who]) {
      if who in s.looked {
        WrittenSinceAppend(s.log, e, s.looked[who].at, s.looked[who].call);
      }
    }
  }

  /** Setting one row to an ADD_CONTENT of this item: a row of the item itself, or a new one. */
  ghost predicate Takes(changes: map<nat, Change>, id: nat, call: Call) {
    id in changes ==> IsAddOf(changes[id], call.mission, call.item)
  }

  lemma TakenRow(changes: map<nat, Change>, id: nat, call: Call, other: Call)
    requires Takes(changes, id, call)
    ensures HasAdd(changes[id := Record(call)], other) <==> HasAdd(changes, other) || SameItem(call, other)
    ensures forall x | x in changes && IsAddOf(changes[x], other.mission, other.item) ::
              IsAddOf(changes[id := Record(call)][x], other.mission, other.item)
  {
    var after := changes[id := Record(call)];
    assert IsAddOf(after[id], call.mission, call.item);
    if SameItem(call, other) {
      assert IsAddOf(after[id], other.mission, other.item);
    }
    if x :| x in changes && IsAddOf(changes[x], other.mission, other.item) {
      assert IsAddOf(after[x], other.mission, other.item);
    }
    if x :| x in after && IsAddOf(after[x], other.mission, other.item) && x != id {
      assert IsAddOf(changes[x], other.mission, other.item);
    }
  }

  /** Refreshing a row keeps what is single single; adding one does if there was none. */
  lemma TakenOnce(changes: map<nat, Change>, id: nat, call: Call)
    requires Takes(changes, id, call)
    ensures OneAddEach(changes[id := Record(call)]) <==> OneAddEach(changes) && (id in changes || !HasAdd(changes, call))
  {
    var after := changes[id := Record(call)];
    if id in changes {
      assert forall x | x in changes :: x in after && after[x].kind == changes[x].kind
               && after[x].mission == changes[x].mission && after[x].item == changes[x].item;
    } else if x :| x in changes && IsAddOf(changes[x], call.mission, call.item) {
      assert after[x] == changes[x] && after[x].kind.AddContent?;
      assert IsAddOf(after[id], after[x].mission, after[x].item);
    } else {
      assert forall x | x in changes :: after[x] == changes[x];
    }
  }

  lemma WriteKeepsLooked(s: State, who: nat, other: nat)
    requires Invariant(s) && who in s.looked && other in s.looked && other != who
    ensures LookedSound(After(s, Write(who)), other, s.looked[other])
  {
    var l, o := s.looked[who], s.looked[other];
    assert LookedSound(s, who, l) && LookedSound(s, other, o);
    TakenRow(s.changes, if l.found.Some? then l.found.value else s.nextId, l.call, o.call);
    WrittenSinceAppend(s.log, DidWrite(who, l.call), o.at, o.call);
  }

  lemma WriteKeepsOnce(s: State, who: nat)
    requires Invariant(s) && who in s.looked
    ensures var t := After(s, Write(who)); OneAddEach(t.changes) <==> !Overlapped(t.log)
  {
    var l := s.looked[who];
    var e := DidWrite(who, l.call);
    assert LookedSound(s, who, l);
    TakenOnce(s.changes, if l.found.Some? then l.found.value else s.nextId, l.call);
    OverlappedAppend(s.log, e);
    if l.found.None? && HasAdd(s.changes, l.call) {
      assert Doubles(s.log, l.at, e);
    }
    if p: nat :| Doubles(s.log, p, e) {
      assert p == l.at;
    }
  }

  lemma WriteKeepsLog(s: State, who: nat)
    requires LogSound(s) && who in s.looked && who < s.calls
    ensures LogSound(After(s, Write(who)))
  {
  }

  lemma WriteKeeps(s: State, who: nat)
    requires Invariant(s) && who in s.looked
    ensures Invariant(After(s, Write(who)))
  {
    var t := After(s, Write(who));
    assert LookedSound(s, who, s.looked[who]);
    WriteKeepsLog(s, who);
    WriteKeepsOnce(s, who);
    forall other | other in t.looked ensures LookedSound(t, other, t.looked[other]) {
      WriteKeepsLooked(s, who, other);
    }
  }

  lemma {:induction false} RunKeeps(s: State, steps: seq<Step>)
    requires Invariant(s) && IsRun(s, steps)
    ensures Invariant(Outcome(s, steps))
    decreases |steps|
  {
    if steps != [] {
      if steps[0].Look? {
        LookKeeps(s, steps[0]);
      } else {
        WriteKeeps(s, steps[0].who);
      }
      RunKeeps(After(s, steps[0]), steps[1..]);
    }
  }

  // --- the results ---

  /**
    For every run of any number of calls: there is at most one ADD_CONTENT change for each mission and
    item at the end exactly if no call wrote for one between another call's look that found none and
    that other call's write.
  */
  lemma OneAddEachIff(changes: map<nat, Change>, nextId: nat, steps: seq<Step>)
    requires OneAddEach(changes) && forall id | id in changes :: id < nextId
    requires IsRun(Start(changes, nextId), steps)
    ensures var s := Outcome(Start(changes, nextId), steps);
            OneAddEach(s.changes) <==> !Overlapped(s.log)
  {
    RunKeeps(Start(changes, nextId), steps);
  }

  /** A call whose write follows its look at once does what RecordChange does. */
  lemma AloneIsRecordChange(s: State, call: Call, found: Option<nat>)
    requires Invariant(s) && OneAddEach(s.changes) && Enabled(s, Look(call, found))
    ensures var looking := After(s, Look(call, found));
            Enabled(looking, Write(s.calls))
            && After(looking, Write(s.calls)).changes == Recorded(Tables(map[], s.changes, s.nextId), call)
  {
    if found.Some? {
      assert forall id | id in s.changes && IsAddOf(s.changes[id], call.mission, call.item) :: id == found.value;
    }
  }

  /** Changes of other kinds come out of any run as they went in, and none is made. */
  lemma {:induction false} OtherKindsUntouched(s: State, steps: seq<Step>, id: nat)
    requires Invariant(s) && IsRun(s, steps)
    ensures var t := Outcome(s, steps);
            && (id in s.changes && !s.changes[id].kind.AddContent? ==> id in t.changes && t.changes[id] == s.changes[id])
            && (id in t.changes && !t.changes[id].kind.AddContent? ==> id in s.changes && t.changes[id] == s.changes[id])
    decreases |steps|
  {
    if steps != [] {
      if steps[0].Look? {
        LookKeeps(s, steps[0]);
      } else {
        assert LookedSound(s, steps[0].who, s.looked[steps[0].who]);
        WriteKeeps(s, steps[0].who);
      }
      OtherKindsUntouched(After(s, steps[0]), steps[1..], id);
    }
  }

  lemma FirstStep(s: State, step: Step, rest: seq<Step>)
    requires Enabled(s, step) && IsRun(After(s, step), rest)
    ensures IsRun(s, [step] + rest) && Outcome(s, [step] + rest) == Outcome(After(s, step), rest)
  {
    assert ([step] + rest)[1..] == rest;
  }

  /** Two calls for an item the mission does not have yet that both look before either writes: the run leaves two rows. */
  lemma OverlapRecordsTwice(changes: map<nat, Change>, nextId: nat, call: Call)
    requires OneAddEach(changes) && (forall id | id in changes :: id < nextId) && !HasAdd(changes, call)
    ensures var steps := [Look(call, None)] + ([Look(call, None)] + ([Write(0)] + ([Write(1)] + [])));
            IsRun(Start(changes, nextId), steps) && !OneAddEach(Outcome(Start(changes, nextId), steps).changes)
  {
    var s0 := Start(changes, nextId);
    var s1 := After(s0, Look(call, None));
    var s2 := After(s1, Look(call, None));
    var s3 := After(s2, Write(0));
    var s4 := After(s3, Write(1));
    FirstStep(s3, Write(1), []);
    FirstStep(s2, Write(0), [Write(1)] + []);
    FirstStep(s1, Look(call, None), [Write(0)] + ([Write(1)] + []));
    FirstStep(s0, Look(call, None), [Look(call, None)] + ([Write(0)] + ([Write(1)] + [])));
    assert s4.changes == changes[nextId := Record(call)][nextId + 1 := Record(call)];
    assert s4.changes[nextId].kind.AddContent? && IsAddOf(s4.changes[nextId + 1], call.mission, call.item);
  }
}
