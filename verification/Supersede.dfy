/**
  Which connection of a device keeps consuming its queues (raven/eud_handler/EudHandler.py,
  parse_device_info and on_control_message). Handlers are separate processes that only talk
  through the broker: consuming, binding the control queue, announcing, receiving and closing are
  steps that may interleave in any order. Messages do not expire and are not lost.
*/
module Supersession {
  import opened Wrappers
  import opened EudHandlers

  datatype Stage = Connected | Consuming | Bound | Announced

  /** One connection of the device; its token is its position. inbox is its control queue. */
  datatype Conn = Conn(h: Handler, stage: Stage, inbox: seq<Control>)

  /** What the broker has done, in order. */
  datatype Event = DidBind(who: nat) | DidAnnounce(who: nat) | DidDisconnect

  datatype State = State(uid: string, conns: seq<Conn>, log: seq<Event>)

  datatype Step =
    | Connect
    | Consume(who: nat)
    | BindControl(who: nat)
    | Announce(who: nat)
    | RequestDisconnect
    | Receive(who: nat)
    | Close(who: nat)

  function Initial(uid: string): State {
    State(uid, [], [])
  }

  /** Its control queue exists: bound and not yet deleted by the connection's end. */
  predicate Listening(c: Conn) {
    (c.stage == Bound || c.stage == Announced) && !c.h.shutdown
  }

  function Enqueue(c: Conn, m: Control): Conn {
    if Listening(c) then c.(inbox := c.inbox + [m]) else c
  }

  function EnqueueAll(conns: seq<Conn>, m: Control): (r: seq<Conn>)
    ensures |r| == |conns|
    ensures forall i | 0 <= i < |conns| :: r[i] == Enqueue(conns[i], m)
  {
    seq(|conns|, i requires 0 <= i < |conns| => Enqueue(conns[i], m))
  }

  /** The order of parse_device_info: consume the shared queues, bind the control queue, announce. */
  function Next(s: State, step: Step): State {
    match step
    case Connect =>
      s.(conns := s.conns + [Conn(NewHandler(|s.conns|).(uid := Some(s.uid), channelOpen := true), Connected, [])])
    case RequestDisconnect =>
      s.(conns := EnqueueAll(s.conns, Disconnect(s.uid)), log := s.log + [DidDisconnect])
    case _ =>
      if step.who >= |s.conns| || s.conns[step.who].h.shutdown then s
      else NextOf(s, step)
  }

  function NextOf(s: State, step: Step): State
    requires !step.Connect? && !step.RequestDisconnect?
    requires step.who < |s.conns|
  {
    var i := step.who;
    var c := s.conns[i];
    match step
    case Consume(_) =>
      if c.stage != Connected then s
      else s.(conns := s.conns[i := c.(stage := Consuming, h := c.h.(tags := ["callsign", "uid"]))])
    case BindControl(_) =>
      if c.stage != Consuming then s
      else s.(conns := s.conns[i := c.(stage := Bound)], log := s.log + [DidBind(i)])
    case Announce(_) =>
      if c.stage != Bound then s
      else
        var announced := s.conns[i := c.(stage := Announced)];
        s.(conns := EnqueueAll(announced, Supersede(s.uid, i)), log := s.log + [DidAnnounce(i)])
    case Receive(_) =>
      if c.inbox == [] then s
      else s.(conns := s.conns[i := c.(h := AfterControl(c.h, c.inbox[0]), inbox := c.inbox[1..])])
    case Close(_) =>
      s.(conns := s.conns[i := c.(h := AfterClose(c.h), inbox := [])])
  }

  function After(s: State, steps: seq<Step>): State {
    if steps == [] then s else Next(After(s, steps[..|steps| - 1]), steps[|steps| - 1])
  }

  ghost predicate Drained(s: State) {
    forall i | 0 <= i < |s.conns| :: s.conns[i].inbox == []
  }

  /** An event that makes connection i step aside, if its control queue is there to hear of it. */
  predicate Hits(e: Event, i: nat) {
    e.DidDisconnect? || (e.DidAnnounce? && e.who != i)
  }

  ghost predicate HitSinceBind(log: seq<Event>, i: nat) {
    exists p, q | 0 <= p < q < |log| :: log[p] == DidBind(i) && Hits(log[q], i)
  }

  lemma HitSinceBindAppend(log: seq<Event>, e: Event, i: nat)
    ensures HitSinceBind(log + [e], i) <==> HitSinceBind(log, i) || (DidBind(i) in log && Hits(e, i))
  {
    var longer := log + [e];
    if HitSinceBind(log, i) {
      var p, q :| 0 <= p < q < |log| && log[p] == DidBind(i) && Hits(log[q], i);
      assert longer[p] == DidBind(i) && Hits(longer[q], i);
    }
    if DidBind(i) in log && Hits(e, i) {
      var p :| 0 <= p < |log| && log[p] == DidBind(i);
      assert longer[p] == DidBind(i) && Hits(longer[|log|], i);
    }
    if HitSinceBind(longer, i) {
      var p, q :| 0 <= p < q < |longer| && longer[p] == DidBind(i) && Hits(longer[q], i);
      assert log[p] == DidBind(i);
      if q < |log| { assert Hits(log[q], i); }
    }
  }

  predicate HitMessage(m: Control, i: nat) {
    m.Disconnect? || (m.Supersede? && m.sender != i)
  }

  ghost predicate OwnMessages(inbox: seq<Control>, uid: string) {
    forall m | m in inbox :: (m.Disconnect? || m.Supersede?) && m.uid == uid
  }

  ghost predicate AnnouncedAfterBind(log: seq<Event>, i: nat) {
    exists p, q | 0 <= p < q < |log| :: log[p] == DidBind(i) && log[q] == DidAnnounce(i)
  }

  /** What every step keeps about connection i. */
  ghost predicate ConnInv(s: State, i: nat)
    requires i < |s.conns|
  {
    var c := s.conns[i];
    && c.h.uid == Some(s.uid) && c.h.token == i && OwnMessages(c.inbox, s.uid)
    && (c.h.shutdown ==> c.inbox == [])
    && (DidBind(i) in s.log <==> c.stage == Bound || c.stage == Announced)
    && (DidAnnounce(i) in s.log <==> c.stage == Announced)
    && (c.stage == Announced ==> AnnouncedAfterBind(s.log, i))
    && (!Listening(c) ==> c.inbox == [])
    && (Listening(c) ==> (HitSinceBind(s.log, i) <==> c.h.superseded || exists m | m in c.inbox :: HitMessage(m, i)))
    && (c.h.superseded ==> c.h.tags == [])
    && (c.stage == Connected || c.stage == Consuming ==> !c.h.superseded)
    && (!c.h.superseded && c.stage != Connected ==> |c.h.tags| == 2)
  }

  ghost predicate Inv(s: State) {
    (forall i | 0 <= i < |s.conns| :: ConnInv(s, i))
    && forall e | e in s.log :: e.DidDisconnect? || e.who < |s.conns|
  }

  /** A new event and (for a hit) its message keep what is known about a connection. */
  lemma EventKeeps(s: State, e: Event, m: Control, i: nat, after: State)
    requires i < |s.conns| == |after.conns| && ConnInv(s, i)
    requires after.log == s.log + [e] && after.uid == s.uid
    requires after.conns[i] == Enqueue(s.conns[i], m)
    requires (m.Disconnect? || m.Supersede?) && m.uid == s.uid
    requires e != DidBind(i) && e != DidAnnounce(i)
    requires Hits(e, i) <==> HitMessage(m, i)
    ensures ConnInv(after, i)
  {
    var c, c' := s.conns[i], after.conns[i];
    HitSinceBindAppend(s.log, e, i);
    if c.stage == Announced {
      var p, q :| 0 <= p < q < |s.log| && s.log[p] == DidBind(i) && s.log[q] == DidAnnounce(i);
      assert after.log[p] == DidBind(i) && after.log[q] == DidAnnounce(i);
    }
    if Listening(c) {
      assert m in c'.inbox;
      assert forall x | x in c.inbox :: x in c'.inbox;
      assert forall x | x in c'.inbox :: x in c.inbox || x == m;
    }
  }

  lemma AnnounceKeeps(s: State, i: nat)
    requires Inv(s) && i < |s.conns| && !s.conns[i].h.shutdown && s.conns[i].stage == Bound
    ensures Inv(NextOf(s, Announce(i)))
  {
    var after := NextOf(s, Announce(i));
    var m, e := Supersede(s.uid, i), DidAnnounce(i);
    forall j | 0 <= j < |s.conns|
      ensures ConnInv(after, j)
    {
      assert ConnInv(s, j);
      if j != i {
        EventKeeps(s, e, m, j, after);
      } else {
        var c, c' := s.conns[i], after.conns[i];
        HitSinceBindAppend(s.log, e, i);
        var p :| 0 <= p < |s.log| && s.log[p] == DidBind(i);
        assert after.log[p] == DidBind(i) && after.log[|s.log|] == DidAnnounce(i);
        assert c'.inbox == c.inbox + [m] && !HitMessage(m, i);
        assert forall x | x in c.inbox :: x in c'.inbox;
      }
    }
  }

  lemma BindKeeps(s: State, i: nat)
    requires Inv(s) && i < |s.conns| && !s.conns[i].h.shutdown && s.conns[i].stage == Consuming
    ensures Inv(NextOf(s, BindControl(i)))
  {
    var after, e := NextOf(s, BindControl(i)), DidBind(i);
    forall j | 0 <= j < |s.conns|
      ensures ConnInv(after, j)
    {
      assert ConnInv(s, j);
      HitSinceBindAppend(s.log, e, j);
      assert after.log[|s.log|] == e;
      if s.conns[j].stage == Announced {
        var p, q :| 0 <= p < q < |s.log| && s.log[p] == DidBind(j) && s.log[q] == DidAnnounce(j);
        assert after.log[p] == DidBind(j) && after.log[q] == DidAnnounce(j);
      }
      if j == i {
        assert !HitSinceBind(s.log, i);
      }
    }
  }

  lemma UnchangedKeeps(s: State, after: State, j: nat)
    requires j < |s.conns| == |after.conns| && ConnInv(s, j)
    requires after.conns[j] == s.conns[j] && after.log == s.log && after.uid == s.uid
    ensures ConnInv(after, j)
  {
  }

  /** Handling the first message: whether something in the queue hits moves into the flag. */
  lemma FirstMessage(c: Conn, uid: string, i: nat)
    requires c.h.uid == Some(uid) && c.h.token == i && OwnMessages(c.inbox, uid) && c.inbox != []
    ensures var h := AfterControl(c.h, c.inbox[0]);
            && h.uid == c.h.uid && h.token == i && h.shutdown == c.h.shutdown
            && (h.superseded || (exists m | m in c.inbox[1..] :: HitMessage(m, i))
                <==> c.h.superseded || (exists m | m in c.inbox :: HitMessage(m, i)))
            && (h == c.h || (h.superseded && h.tags == []))
    ensures OwnMessages(c.inbox[1..], uid)
  {
    var h, first := AfterControl(c.h, c.inbox[0]), c.inbox[0];
    assert first in c.inbox;
    assert forall m :: m in c.inbox <==> m == first || m in c.inbox[1..];
    assert h.superseded <==> c.h.superseded || HitMessage(first, i);
  }

  lemma ReceiveKeeps(s: State, i: nat)
    requires Inv(s) && i < |s.conns| && !s.conns[i].h.shutdown && s.conns[i].inbox != []
    ensures Inv(NextOf(s, Receive(i)))
  {
    var after := NextOf(s, Receive(i));
    forall j | 0 <= j < |s.conns|
      ensures ConnInv(after, j)
    {
      assert ConnInv(s, j);
      if j != i {
        UnchangedKeeps(s, after, j);
      } else {
        FirstMessage(s.conns[i], s.uid, i);
      }
    }
  }

  /** Every step, enabled or not, keeps the invariant. */
  lemma NextKeeps(s: State, step: Step)
    requires Inv(s)
    ensures Inv(Next(s, step))
  {
    var after := Next(s, step);
    if step.Connect? {
      var n := |s.conns|;
      forall j | 0 <= j < |after.conns|
        ensures ConnInv(after, j)
      {
        if j < n {
          assert ConnInv(s, j);
        } else {
          assert DidBind(n) !in s.log && DidAnnounce(n) !in s.log;
        }
      }
    } else if step.RequestDisconnect? {
      forall j | 0 <= j < |s.conns|
        ensures ConnInv(after, j)
      {
        EventKeeps(s, DidDisconnect, Disconnect(s.uid), j, after);
      }
    } else if step.who < |s.conns| && !s.conns[step.who].h.shutdown {
      var i := step.who;
      if step.Announce? && s.conns[i].stage == Bound {
        AnnounceKeeps(s, i);
      } else if step.BindControl? && s.conns[i].stage == Consuming {
        BindKeeps(s, i);
      } else if step.Receive? && s.conns[i].inbox != [] {
        ReceiveKeeps(s, i);
      } else if step.Consume? || step.Close? {
        forall j | 0 <= j < |s.conns|
          ensures ConnInv(after, j)
        {
          assert ConnInv(s, j);
        }
      }
    }
  }

  lemma {:induction false} RunKeeps(uid: string, steps: seq<Step>)
    ensures Inv(After(Initial(uid), steps))
  {
    if steps != [] {
      RunKeeps(uid, steps[..|steps| - 1]);
      NextKeeps(After(Initial(uid), steps[..|steps| - 1]), steps[|steps| - 1]);
    }
  }

  /**
    In every run: once its control queue is empty, a listening connection has stepped aside exactly
    when some other connection announced itself, or a disconnect was requested, after it bound.
  */
  lemma SteppedAsideIff(uid: string, steps: seq<Step>, i: nat)
    requires var s := After(Initial(uid), steps);
             i < |s.conns| && Listening(s.conns[i]) && s.conns[i].inbox == []
    ensures var s := After(Initial(uid), steps);
            s.conns[i].h.superseded <==> HitSinceBind(s.log, i)
  {
    RunKeeps(uid, steps);
    assert ConnInv(After(Initial(uid), steps), i);
  }

  /** Of two connections that announced themselves one was hit by the other's announcement. */
  lemma OneIsHit(log: seq<Event>, i: nat, j: nat)
    requires i != j && AnnouncedAfterBind(log, i) && AnnouncedAfterBind(log, j)
    ensures HitSinceBind(log, i) || HitSinceBind(log, j)
  {
    var bi, ai :| 0 <= bi < ai < |log| && log[bi] == DidBind(i) && log[ai] == DidAnnounce(i);
    var bj, aj :| 0 <= bj < aj < |log| && log[bj] == DidBind(j) && log[aj] == DidAnnounce(j);
    assert ai != aj;
    if ai < aj {
      assert bi < aj && Hits(log[aj], i);
    } else {
      assert bj < ai && Hits(log[ai], j);
    }
  }

  /**
    In every run, once the control queues are drained, at most one announced connection that is
    still open has not stepped aside, so at most one of them still consumes the shared queues.
  */
  lemma AtMostOneConsumer(uid: string, steps: seq<Step>, i: nat, j: nat)
    requires var s := After(Initial(uid), steps);
             && Drained(s) && i < |s.conns| && j < |s.conns| && i != j
             && s.conns[i].stage == Announced && !s.conns[i].h.shutdown
             && s.conns[j].stage == Announced && !s.conns[j].h.shutdown
    ensures var s := After(Initial(uid), steps);
            s.conns[i].h.tags == [] || s.conns[j].h.tags == []
  {
    RunKeeps(uid, steps);
    var s := After(Initial(uid), steps);
    assert ConnInv(s, i) && ConnInv(s, j);
    OneIsHit(s.log, i, j);
  }

  /** Nothing that matters to i happened between its binding and its announcement, nor after it. */
  ghost predicate UndisturbedSinceBind(log: seq<Event>, i: nat) {
    DidAnnounce(i) in log && !HitSinceBind(log, i)
  }

  /**
    If no other connection announced itself and no disconnect was requested since i bound, then
    once the queues are drained i, if still open, is the one announced connection that consumes.
  */
  lemma LatestKeepsConsuming(uid: string, steps: seq<Step>, i: nat)
    requires var s := After(Initial(uid), steps);
             Drained(s) && i < |s.conns| && !s.conns[i].h.shutdown && UndisturbedSinceBind(s.log, i)
    ensures var s := After(Initial(uid), steps);
            && |s.conns[i].h.tags| == 2 && !s.conns[i].h.superseded
            && forall j | 0 <= j < |s.conns| && j != i && s.conns[j].stage == Announced && !s.conns[j].h.shutdown ::
                 s.conns[j].h.superseded && s.conns[j].h.tags == []
  {
    RunKeeps(uid, steps);
    var s := After(Initial(uid), steps);
    assert ConnInv(s, i);
    forall j | 0 <= j < |s.conns| && j != i && s.conns[j].stage == Announced && !s.conns[j].h.shutdown
      ensures s.conns[j].h.superseded && s.conns[j].h.tags == []
    {
      AtMostOneConsumer(uid, steps, i, j);
      assert ConnInv(s, j);
    }
  }

  /** ... and when any other announced connection then closes, the device's queues stay bound. */
  lemma ZombieCloseLeavesQueues(uid: string, steps: seq<Step>, i: nat, j: nat)
    requires var s := After(Initial(uid), steps);
             && Drained(s) && i < |s.conns| && !s.conns[i].h.shutdown && UndisturbedSinceBind(s.log, i)
             && j < |s.conns| && j != i && s.conns[j].stage == Announced
    ensures !CloseTakesQueues(After(Initial(uid), steps).conns[j].h)
  {
    LatestKeepsConsuming(uid, steps, i);
  }

  /** In the k-th step connection i takes a hit off its queue. */
  predicate HearsHit(uid: string, steps: seq<Step>, k: nat, i: nat)
    requires k < |steps|
  {
    var s := After(Initial(uid), steps[..k]);
    && steps[k] == Receive(i) && i < |s.conns| && !s.conns[i].h.shutdown
    && s.conns[i].inbox != [] && HitMessage(s.conns[i].inbox[0], i)
  }

  ghost predicate HeardHit(uid: string, steps: seq<Step>, i: nat) {
    exists k | 0 <= k < |steps| :: HearsHit(uid, steps, k, i)
  }

  lemma StepSetsAside(s: State, step: Step, i: nat)
    requires Inv(s) && i < |Next(s, step).conns|
    ensures Next(s, step).conns[i].h.superseded <==>
              i < |s.conns|
              && (s.conns[i].h.superseded
                  || (step == Receive(i) && !s.conns[i].h.shutdown && s.conns[i].inbox != [] && HitMessage(s.conns[i].inbox[0], i)))
  {
    if i < |s.conns| {
      assert ConnInv(s, i);
      if s.conns[i].inbox != [] {
        assert s.conns[i].inbox[0] in s.conns[i].inbox;
      }
    }
  }

  lemma HeardInOneMore(uid: string, steps: seq<Step>, i: nat)
    requires steps != []
    ensures HeardHit(uid, steps, i) <==>
              HeardHit(uid, steps[..|steps| - 1], i) || HearsHit(uid, steps, |steps| - 1, i)
  {
    var front := steps[..|steps| - 1];
    forall k | 0 <= k < |front| ensures HearsHit(uid, front, k, i) == HearsHit(uid, steps, k, i) {
      assert front[..k] == steps[..k];
    }
    if HeardHit(uid, front, i) {
      var k :| 0 <= k < |front| && HearsHit(uid, front, k, i);
      assert HearsHit(uid, steps, k, i);
    }
  }

  /** A connection has stepped aside exactly if it has received a hit. */
  lemma {:induction false} AsideIffHeard(uid: string, steps: seq<Step>, i: nat)
    requires i < |After(Initial(uid), steps).conns|
    ensures After(Initial(uid), steps).conns[i].h.superseded <==> HeardHit(uid, steps, i)
  {
    if steps != [] {
      var n := |steps| - 1;
      var front := steps[..n];
      var s := After(Initial(uid), front);
      RunKeeps(uid, front);
      StepSetsAside(s, steps[n], i);
      HeardInOneMore(uid, steps, i);
      if i < |s.conns| {
        AsideIffHeard(uid, front, i);
      } else {
        NotHeardBefore(uid, front, i);
      }
    }
  }

  /** A connection that is not there has received nothing. */
  lemma {:induction false} NotHeardBefore(uid: string, steps: seq<Step>, i: nat)
    requires i >= |After(Initial(uid), steps).conns|
    ensures !HeardHit(uid, steps, i)
  {
    if steps != [] {
      var n := |steps| - 1;
      var front := steps[..n];
      NotHeardBefore(uid, front, i);
      HeardInOneMore(uid, steps, i);
    }
  }

  /**
    In every run, drained or not: when an open connection that a newer one has announced itself over
    closes, it unbinds the shared queues from under the newer one exactly if it has not yet received
    any of the hits published since it bound; one of them is then still waiting in its queue.
  */
  lemma OldCloseTakesQueuesIff(uid: string, steps: seq<Step>, i: nat)
    requires var s := After(Initial(uid), steps);
             i < |s.conns| && Listening(s.conns[i]) && HitSinceBind(s.log, i)
    ensures var c := After(Initial(uid), steps).conns[i];
            && (CloseTakesQueues(c.h) <==> !HeardHit(uid, steps, i))
            && (CloseTakesQueues(c.h) ==> exists m | m in c.inbox :: HitMessage(m, i))
  {
    RunKeeps(uid, steps);
    assert ConnInv(After(Initial(uid), steps), i);
    AsideIffHeard(uid, steps, i);
  }

  // --- two connections whose announcements overlap ---

  function Two(c0: Conn, c1: Conn, log: seq<Event>): State {
    State("d", [c0, c1], log)
  }

  function Device(token: nat): Handler {
    NewHandler(token).(uid := Some("d"), channelOpen := true, tags := ["callsign", "uid"])
  }

  function Aside(token: nat): Handler {
    Device(token).(superseded := true, tags := [])
  }

  function BothBind(): seq<Step> {
    [Connect, Connect, Consume(0), Consume(1), BindControl(0), BindControl(1)]
  }

  function BothAnnounce(): seq<Step> {
    [Announce(0), Announce(1), Receive(0), Receive(0), Receive(1), Receive(1)]
  }

  lemma {:induction false} AfterAppend(s: State, a: seq<Step>, b: seq<Step>)
    ensures After(s, a + b) == After(After(s, a), b)
  {
    if b == [] {
      assert a + b == a;
    } else {
      assert (a + b)[..|a + b| - 1] == a + b[..|b| - 1];
      AfterAppend(s, a, b[..|b| - 1]);
    }
  }

  lemma RunOf6(s: State, t: seq<Step>)
    requires |t| == 6
    ensures After(s, t) == Next(Next(Next(Next(Next(Next(s, t[0]), t[1]), t[2]), t[3]), t[4]), t[5])
  {
    assert t[..5][..4] == t[..4] && t[..4][..3] == t[..3] && t[..3][..2] == t[..2] && t[..2][..1] == t[..1] && t[..1][..0] == [];
    assert After(s, t[..1]) == Next(s, t[0]);
    assert After(s, t[..2]) == Next(After(s, t[..1]), t[1]);
    assert After(s, t[..3]) == Next(After(s, t[..2]), t[2]);
    assert After(s, t[..4]) == Next(After(s, t[..3]), t[3]);
    assert After(s, t[..5]) == Next(After(s, t[..4]), t[4]);
  }

  lemma BothBound()
    ensures After(Initial("d"), BothBind())
         == Two(Conn(Device(0), Bound, []), Conn(Device(1), Bound, []), [DidBind(0), DidBind(1)])
  {
    RunOf6(Initial("d"), BothBind());
    var h0, h1 := Device(0).(tags := []), Device(1).(tags := []);
    var s1 := Next(Initial("d"), Connect);
    assert s1.conns == [Conn(h0, Connected, [])];
    var s2 := Next(s1, Connect);
    assert s2.conns == [Conn(h0, Connected, []), Conn(h1, Connected, [])];
    var s4 := Next(Next(s2, Consume(0)), Consume(1));
    var s5 := Next(s4, BindControl(0));
    assert s5.log == [DidBind(0)];
    assert Next(s5, BindControl(1)).log == [DidBind(0), DidBind(1)];
  }

  lemma FirstAnnounces(c0: Conn, c1: Conn, log: seq<Event>)
    requires c0.stage == Bound && Listening(c0) && Listening(c1)
    ensures Next(Two(c0, c1, log), Announce(0))
         == Two(Conn(c0.h, Announced, c0.inbox + [Supersede("d", 0)]),
                c1.(inbox := c1.inbox + [Supersede("d", 0)]), log + [DidAnnounce(0)])
  {
  }

  lemma SecondAnnounces(c0: Conn, c1: Conn, log: seq<Event>)
    requires c1.stage == Bound && Listening(c0) && Listening(c1)
    ensures Next(Two(c0, c1, log), Announce(1))
         == Two(c0.(inbox := c0.inbox + [Supersede("d", 1)]),
                Conn(c1.h, Announced, c1.inbox + [Supersede("d", 1)]), log + [DidAnnounce(1)])
  {
  }

  lemma FirstReceives(h: Handler, m: Control, rest: seq<Control>, c1: Conn, log: seq<Event>)
    requires !h.shutdown
    ensures Next(Two(Conn(h, Announced, [m] + rest), c1, log), Receive(0))
         == Two(Conn(AfterControl(h, m), Announced, rest), c1, log)
  {
  }

  lemma SecondReceives(h: Handler, m: Control, rest: seq<Control>, c0: Conn, log: seq<Event>)
    requires !h.shutdown
    ensures Next(Two(c0, Conn(h, Announced, [m] + rest), log), Receive(1))
         == Two(c0, Conn(AfterControl(h, m), Announced, rest), log)
  {
  }

  function Heard(token: nat): Conn {
    Conn(Device(token), Announced, [Supersede("d", 0), Supersede("d", 1)])
  }

  lemma BothAnnounced(log: seq<Event>)
    ensures Next(Next(Two(Conn(Device(0), Bound, []), Conn(Device(1), Bound, []), log), Announce(0)), Announce(1))
         == Two(Heard(0), Heard(1), log + [DidAnnounce(0)] + [DidAnnounce(1)])
  {
    var m0, m1 := Supersede("d", 0), Supersede("d", 1);
    FirstAnnounces(Conn(Device(0), Bound, []), Conn(Device(1), Bound, []), log);
    assert [] + [m0] == [m0];
    SecondAnnounces(Conn(Device(0), Announced, [m0]), Conn(Device(1), Bound, [m0]), log + [DidAnnounce(0)]);
    assert [m0] + [m1] == [m0, m1];
  }

  lemma FirstHears(c1: Conn, log: seq<Event>)
    ensures Next(Next(Two(Heard(0), c1, log), Receive(0)), Receive(0)) == Two(Conn(Aside(0), Announced, []), c1, log)
  {
    var m0, m1 := Supersede("d", 0), Supersede("d", 1);
    assert [m0, m1] == [m0] + [m1] && [m1] == [m1] + [];
    FirstReceives(Device(0), m0, [m1], c1, log);
    FirstReceives(Device(0), m1, [], c1, log);
  }

  lemma SecondHears(c0: Conn, log: seq<Event>)
    ensures Next(Next(Two(c0, Heard(1), log), Receive(1)), Receive(1)) == Two(c0, Conn(Aside(1), Announced, []), log)
  {
    var m0, m1 := Supersede("d", 0), Supersede("d", 1);
    assert [m0, m1] == [m0] + [m1] && [m1] == [m1] + [];
    SecondReceives(Device(1), m0, [m1], c0, log);
    SecondReceives(Aside(1), m1, [], c0, log);
  }

  /**
    When both bind before either announces, both step aside: every queue is drained, both
    connections are open and announced, and neither consumes the device's queues.
  */
  lemma OverlapLeavesNobody()
    ensures After(Initial("d"), BothBind() + BothAnnounce())
         == Two(Conn(Aside(0), Announced, []), Conn(Aside(1), Announced, []),
                [DidBind(0), DidBind(1)] + [DidAnnounce(0)] + [DidAnnounce(1)])
  {
    var bound, log := [DidBind(0), DidBind(1)], [DidBind(0), DidBind(1)] + [DidAnnounce(0)] + [DidAnnounce(1)];
    AfterAppend(Initial("d"), BothBind(), BothAnnounce());
    BothBound();
    RunOf6(After(Initial("d"), BothBind()), BothAnnounce());
    BothAnnounced(bound);
    FirstHears(Heard(1), log);
    SecondHears(Conn(Aside(0), Announced, []), log);
  }
}
