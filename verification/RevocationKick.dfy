/**
  Dropping the live connections of a revoked client certificate
  (raven/eud_handler/EudHandler.py, EudHandlerSSL.py and raven/cert_revocation.py). On one side a
  connection learns its certificate's serial (handler thread) and opens its channel (RabbitMQ
  thread), then binds a queue and checks the index; on the other side a revocation writes the
  index, then publishes a kick. All of these are separate steps. The client library only sends the
  bind command: when the broker applies it is a step of its own. Messages do not expire.
*/
module RevocationKick {
  import opened Wrappers
  import opened EudHandlers

  /** How far EudHandlerSSL.setup has come. */
  datatype Setup = Handshaking | SerialKnown | SerialChecked | BindRequested

  /** callbacks: scheduled bind callbacks; checking: between the bind call and its index check. */
  datatype Conn = Conn(h: Handler, setup: Setup, callbacks: nat, checking: bool, atBroker: bool, inbox: seq<Control>)

  datatype Event =
    | Wrote(serial: string)
    | Published(serial: string)
    | SetupChecked(who: nat)
    | Issued(who: nat)
    | Applied(who: nat)
    | Checked(who: nat)

  datatype State = State(conns: seq<Conn>, revoked: set<string>, log: seq<Event>)

  datatype Step =
    | Connect
    | Revoke(serial: string)
    | Publish(serial: string)
    | OpenChannel(who: nat)
    | LearnSerial(who: nat, peer: string)
    | CheckInSetup(who: nat)
    | RequestBind(who: nat)
    | RunCallback(who: nat)
    | ApplyBind(who: nat)
    | CheckAfterBind(who: nat)
    | Receive(who: nat)

  const INITIAL := State([], {}, [])

  predicate Reaches(c: Conn, serial: string) {
    c.atBroker && !c.h.shutdown && c.h.serial == Some(serial)
  }

  function Kick(conns: seq<Conn>, serial: string): (r: seq<Conn>)
    ensures |r| == |conns|
    ensures forall i | 0 <= i < |conns| ::
              r[i] == if Reaches(conns[i], serial) then conns[i].(inbox := conns[i].inbox + [Control.Revoke(serial)]) else conns[i]
  {
    seq(|conns|, i requires 0 <= i < |conns| =>
      if Reaches(conns[i], serial) then conns[i].(inbox := conns[i].inbox + [Control.Revoke(serial)]) else conns[i])
  }

  function With(s: State, i: nat, c: Conn): State
    requires i < |s.conns|
  {
    s.(conns := s.conns[i := c])
  }

  /** bind_cert_control_queue up to its index check, on the RabbitMQ thread. */
  function BindCall(s: State, i: nat, c: Conn): State
    requires i < |s.conns|
  {
    if MayBindCert(c.h)
    then With(s, i, c.(h := AfterBindCert(c.h), checking := true)).(log := s.log + [Issued(i)])
    else With(s, i, c)
  }

  function Next(s: State, step: Step): State {
    match step
    case Connect => s.(conns := s.conns + [Conn(NewHandler(|s.conns|), Handshaking, 0, false, false, [])])
    case Revoke(serial) => s.(revoked := s.revoked + {serial}, log := s.log + [Wrote(serial)])
    case Publish(serial) =>
      if serial !in s.revoked then s
      else s.(conns := Kick(s.conns, serial), log := s.log + [Published(serial)])
    case _ =>
      if step.who >= |s.conns| || s.conns[step.who].h.shutdown then s else NextOf(s, step)
  }

  function NextOf(s: State, step: Step): State
    requires !step.Connect? && !step.Revoke? && !step.Publish?
    requires step.who < |s.conns|
  {
    var i := step.who;
    var c := s.conns[i];
    match step
    case OpenChannel(_) =>
      if c.h.channelOpen then s else BindCall(s, i, c.(h := c.h.(channelOpen := true)))
    case LearnSerial(_, peer) =>
      if c.setup != Handshaking || peer == "" then s
      else With(s, i, c.(setup := SerialKnown, h := c.h.(serial := Some(peer))))
    case CheckInSetup(_) =>
      if c.setup != SerialKnown then s
      else With(s, i, c.(setup := SerialChecked, h := AfterIndexCheck(c.h, s.revoked))).(log := s.log + [SetupChecked(i)])
    case RequestBind(_) =>
      if c.setup != SerialChecked then s
      else With(s, i, c.(setup := BindRequested, callbacks := c.callbacks + 1))
    case RunCallback(_) =>
      if c.callbacks == 0 || c.checking then s
      else BindCall(s, i, c.(callbacks := c.callbacks - 1))
    case ApplyBind(_) =>
      if !c.h.certBound || c.atBroker then s
      else With(s, i, c.(atBroker := true)).(log := s.log + [Applied(i)])
    case CheckAfterBind(_) =>
      if !c.checking then s
      else With(s, i, c.(checking := false, h := AfterIndexCheck(c.h, s.revoked))).(log := s.log + [Checked(i)])
    case Receive(_) =>
      if c.checking || c.inbox == [] then s
      else With(s, i, c.(h := AfterControl(c.h, c.inbox[0]), inbox := c.inbox[1..]))
  }

  function After(steps: seq<Step>): State {
    if steps == [] then INITIAL else Next(After(steps[..|steps| - 1]), steps[|steps| - 1])
  }

  // --- the order of events ---

  ghost predicate Precedes(log: seq<Event>, a: Event, b: Event) {
    exists p, q | 0 <= p < q < |log| :: log[p] == a && log[q] == b
  }

  function Count(log: seq<Event>, e: Event): nat {
    multiset(log)[e]
  }

  lemma PrecedesAppend(log: seq<Event>, e: Event, a: Event, b: Event)
    ensures Precedes(log + [e], a, b) <==> Precedes(log, a, b) || (a in log && e == b)
  {
    var longer := log + [e];
    if Precedes(log, a, b) {
      var p, q :| 0 <= p < q < |log| && log[p] == a && log[q] == b;
      assert longer[p] == a && longer[q] == b;
    }
    if a in log && e == b {
      var p :| 0 <= p < |log| && log[p] == a;
      assert longer[p] == a && longer[|log|] == b;
    }
    if Precedes(longer, a, b) {
      var p, q :| 0 <= p < q < |longer| && longer[p] == a && longer[q] == b;
      assert log[p] == a;
      if q < |log| { assert log[q] == b; }
    }
  }

  /** A check of connection i read an index that already held its serial. */
  ghost predicate SawIndex(log: seq<Event>, i: nat, serial: string) {
    Precedes(log, Wrote(serial), SetupChecked(i)) || Precedes(log, Wrote(serial), Checked(i))
  }

  /** A kick was published when the broker had applied the binding of connection i. */
  ghost predicate Kicked(log: seq<Event>, i: nat, serial: string) {
    Precedes(log, Applied(i), Published(serial))
  }

  ghost predicate Hit(log: seq<Event>, i: nat, serial: string) {
    SawIndex(log, i, serial) || Kicked(log, i, serial)
  }

  lemma HitAppend(log: seq<Event>, e: Event, i: nat, serial: string)
    ensures Hit(log + [e], i, serial) <==>
              || Hit(log, i, serial)
              || (Wrote(serial) in log && (e == SetupChecked(i) || e == Checked(i)))
              || (Applied(i) in log && e == Published(serial))
  {
    PrecedesAppend(log, e, Wrote(serial), SetupChecked(i));
    PrecedesAppend(log, e, Wrote(serial), Checked(i));
    PrecedesAppend(log, e, Applied(i), Published(serial));
  }

  // --- what every step keeps ---

  ghost predicate ConnInv(s: State, i: nat)
    requires i < |s.conns|
  {
    var c := s.conns[i];
    && c.h.token == i && !c.h.superseded
    && (c.setup == Handshaking <==> c.h.serial.None?)
    && (c.h.serial.Some? ==> c.h.serial.value != "")
    && (SetupChecked(i) in s.log ==> c.setup == SerialChecked || c.setup == BindRequested)
    && Count(s.log, Issued(i)) == (if c.h.certBound then 1 else 0)
    && (c.h.certBound ==> c.h.serial.Some?)
    && (c.h.certBound && !c.h.shutdown ==> c.h.channelOpen)
    && (c.atBroker <==> Applied(i) in s.log)
    && (c.atBroker ==> c.h.certBound)
    && (Checked(i) in s.log ==> c.h.certBound && !c.checking)
    && (c.checking ==> c.h.certBound)
    && (c.h.certBound && !c.checking ==> Checked(i) in s.log)
    && (c.callbacks > 0 ==> c.setup == BindRequested)
    && (forall m | m in c.inbox :: m.Revoke? && c.h.serial == Some(m.serial))
    && (c.h.serial.Some? ==> (Hit(s.log, i, c.h.serial.value) <==> c.h.shutdown || c.inbox != []))
    && (c.h.serial.None? ==> !c.h.shutdown && c.inbox == [])
    && (!c.h.certBound && c.h.channelOpen && c.setup == BindRequested ==> c.callbacks > 0)
  }

  ghost predicate Inv(s: State) {
    && (forall i | 0 <= i < |s.conns| :: ConnInv(s, i))
    && (forall serial :: serial in s.revoked <==> Wrote(serial) in s.log)
    && (forall serial :: Published(serial) in s.log ==> Precedes(s.log, Wrote(serial), Published(serial)))
    && (forall e | e in s.log :: e.Wrote? || e.Published? || e.who < |s.conns|)
  }

  /** The part of the invariant that is about the log only, for one more event. */
  lemma LogKeeps(s: State, e: Event, after: State)
    requires Inv(s) && after.log == s.log + [e] && |after.conns| == |s.conns|
    requires after.revoked == if e.Wrote? then s.revoked + {e.serial} else s.revoked
    requires e.Published? ==> e.serial in s.revoked
    requires e.Wrote? || e.Published? || e.who < |s.conns|
    ensures forall serial :: serial in after.revoked <==> Wrote(serial) in after.log
    ensures forall serial :: Published(serial) in after.log ==> Precedes(after.log, Wrote(serial), Published(serial))
    ensures forall x | x in after.log :: x.Wrote? || x.Published? || x.who < |after.conns|
  {
    forall serial | Published(serial) in after.log
      ensures Precedes(after.log, Wrote(serial), Published(serial))
    {
      PrecedesAppend(s.log, e, Wrote(serial), Published(serial));
    }
  }

  /** A connection the event is not about keeps its part. */
  lemma OtherKeeps(s: State, e: Event, after: State, j: nat)
    requires j < |s.conns| == |after.conns| && ConnInv(s, j) && after.log == s.log + [e]
    requires after.conns[j] == s.conns[j]
    requires e.Wrote? || (e.Published? && !Reaches(s.conns[j], e.serial)) || (!e.Published? && e.who != j)
    ensures ConnInv(after, j)
  {
    var c := s.conns[j];
    if c.h.serial.Some? {
      HitAppend(s.log, e, j, c.h.serial.value);
    }
  }

  lemma PublishKeeps(s: State, serial: string)
    requires Inv(s) && serial in s.revoked
    ensures Inv(Next(s, Publish(serial)))
  {
    var after, e := Next(s, Publish(serial)), Published(serial);
    LogKeeps(s, e, after);
    forall j | 0 <= j < |s.conns|
      ensures ConnInv(after, j)
    {
      assert ConnInv(s, j);
      if Reaches(s.conns[j], serial) {
        HitAppend(s.log, e, j, serial);
      } else {
        OtherKeeps(s, e, after, j);
      }
    }
  }

  /** A step of connection i that logs an event about i keeps everything, if it does so for i. */
  lemma LoggedStepKeeps(s: State, i: nat, c: Conn, e: Event)
    requires Inv(s) && i < |s.conns| && !e.Wrote? && !e.Published? && e.who == i
    requires ConnInv(With(s, i, c).(log := s.log + [e]), i)
    ensures Inv(With(s, i, c).(log := s.log + [e]))
  {
    var after := With(s, i, c).(log := s.log + [e]);
    LogKeeps(s, e, after);
    forall j | 0 <= j < |s.conns|
      ensures ConnInv(after, j)
    {
      assert ConnInv(s, j);
      if j != i {
        OtherKeeps(s, e, after, j);
      }
    }
  }

  lemma UnloggedStepKeeps(s: State, i: nat, c: Conn)
    requires Inv(s) && i < |s.conns| && ConnInv(With(s, i, c), i)
    ensures Inv(With(s, i, c))
  {
    var after := With(s, i, c);
    forall j | 0 <= j < |s.conns|
      ensures ConnInv(after, j)
    {
      assert ConnInv(s, j);
    }
  }

  /** The bind call: what it needs to know of the connection just before it. */
  lemma BindCallKeeps(s: State, i: nat, c: Conn)
    requires Inv(s) && i < |s.conns|
    requires !c.h.shutdown && !c.checking && c.h.channelOpen
    requires c.setup == s.conns[i].setup && c.atBroker == s.conns[i].atBroker && c.inbox == s.conns[i].inbox
    requires s.conns[i].checking == false && !s.conns[i].h.shutdown
    requires c.h == s.conns[i].h.(channelOpen := true) && (c.callbacks > 0 ==> c.setup == BindRequested)
    ensures Inv(BindCall(s, i, c))
  {
    assert ConnInv(s, i);
    if MayBindCert(c.h) {
      HitAppend(s.log, Issued(i), i, c.h.serial.value);
      LoggedStepKeeps(s, i, c.(h := AfterBindCert(c.h), checking := true), Issued(i));
    } else {
      UnloggedStepKeeps(s, i, c);
    }
  }

  lemma LearnSerialKeeps(s: State, i: nat, peer: string)
    requires Inv(s) && i < |s.conns| && !s.conns[i].h.shutdown && s.conns[i].setup == Handshaking && peer != ""
    ensures Inv(NextOf(s, LearnSerial(i, peer)))
  {
    var c := s.conns[i];
    assert ConnInv(s, i);
    assert !Hit(s.log, i, peer);
    UnloggedStepKeeps(s, i, c.(setup := SerialKnown, h := c.h.(serial := Some(peer))));
  }

  lemma CheckKeeps(s: State, i: nat, c: Conn, e: Event)
    requires Inv(s) && i < |s.conns| && !s.conns[i].h.shutdown && s.conns[i].h.serial.Some?
    requires c == s.conns[i].(setup := c.setup, checking := c.checking, h := AfterIndexCheck(s.conns[i].h, s.revoked))
    requires || (e == SetupChecked(i) && s.conns[i].setup == SerialKnown && c.setup == SerialChecked && c.checking == s.conns[i].checking)
             || (e == Checked(i) && s.conns[i].checking && !c.checking && c.setup == s.conns[i].setup)
    ensures Inv(With(s, i, c).(log := s.log + [e]))
  {
    assert ConnInv(s, i);
    HitAppend(s.log, e, i, c.h.serial.value);
    LoggedStepKeeps(s, i, c, e);
  }

  lemma ApplyKeeps(s: State, i: nat)
    requires Inv(s) && i < |s.conns| && !s.conns[i].h.shutdown && s.conns[i].h.certBound && !s.conns[i].atBroker
    ensures Inv(NextOf(s, ApplyBind(i)))
  {
    var c := s.conns[i];
    assert ConnInv(s, i);
    HitAppend(s.log, Applied(i), i, c.h.serial.value);
    LoggedStepKeeps(s, i, c.(atBroker := true), Applied(i));
  }

  lemma ReceiveKeeps(s: State, i: nat)
    requires Inv(s) && i < |s.conns| && !s.conns[i].h.shutdown && s.conns[i].inbox != [] && !s.conns[i].checking
    ensures Inv(NextOf(s, Receive(i)))
  {
    var c := s.conns[i];
    assert ConnInv(s, i);
    assert c.inbox[0] in c.inbox;
    UnloggedStepKeeps(s, i, c.(h := AfterControl(c.h, c.inbox[0]), inbox := c.inbox[1..]));
  }

  /** Every step keeps the invariant. */
  lemma NextKeeps(s: State, step: Step)
    requires Inv(s)
    ensures Inv(Next(s, step))
  {
    var after := Next(s, step);
    match step
    case Connect =>
      forall j | 0 <= j < |after.conns|
        ensures ConnInv(after, j)
      {
        if j < |s.conns| {
          assert ConnInv(s, j);
        }
      }
    case Revoke(serial) =>
      LogKeeps(s, Wrote(serial), after);
      forall j | 0 <= j < |s.conns|
        ensures ConnInv(after, j)
      {
        assert ConnInv(s, j);
        OtherKeeps(s, Wrote(serial), after, j);
      }
    case Publish(serial) =>
      if serial in s.revoked {
        PublishKeeps(s, serial);
      }
    case _ =>
      if step.who < |s.conns| && !s.conns[step.who].h.shutdown {
        NextOfKeeps(s, step);
      }
  }

  lemma NextOfKeeps(s: State, step: Step)
    requires Inv(s)
    requires !step.Connect? && !step.Revoke? && !step.Publish?
    requires step.who < |s.conns| && !s.conns[step.who].h.shutdown
    ensures Inv(NextOf(s, step))
  {
    var i := step.who;
    var c := s.conns[i];
    assert ConnInv(s, i);
    match step
    case OpenChannel(_) =>
      if !c.h.channelOpen {
        BindCallKeeps(s, i, c.(h := c.h.(channelOpen := true)));
      }
    case LearnSerial(_, peer) =>
      if c.setup == Handshaking && peer != "" {
        LearnSerialKeeps(s, i, peer);
      }
    case CheckInSetup(_) =>
      if c.setup == SerialKnown {
        CheckKeeps(s, i, c.(setup := SerialChecked, h := AfterIndexCheck(c.h, s.revoked)), SetupChecked(i));
      }
    case RequestBind(_) =>
      if c.setup == SerialChecked {
        UnloggedStepKeeps(s, i, c.(setup := BindRequested, callbacks := c.callbacks + 1));
      }
    case RunCallback(_) =>
      if c.callbacks > 0 && !c.checking {
        if c.h.channelOpen {
          BindCallKeeps(s, i, c.(callbacks := c.callbacks - 1));
        } else {
          UnloggedStepKeeps(s, i, c.(callbacks := c.callbacks - 1));
        }
      }
    case ApplyBind(_) =>
      if c.h.certBound && !c.atBroker {
        ApplyKeeps(s, i);
      }
    case CheckAfterBind(_) =>
      if c.checking {
        CheckKeeps(s, i, c.(checking := false, h := AfterIndexCheck(c.h, s.revoked)), Checked(i));
      }
    case Receive(_) =>
      if !c.checking && c.inbox != [] {
        ReceiveKeeps(s, i);
      }
  }

  lemma {:induction false} RunKeeps(steps: seq<Step>)
    ensures Inv(After(steps))
  {
    if steps != [] {
      RunKeeps(steps[..|steps| - 1]);
      NextKeeps(After(steps[..|steps| - 1]), steps[|steps| - 1]);
    }
  }

  // --- main results, for every run ---

  /**
    Whichever of channel and serial comes first: the queue is bound at most once, and it has been
    bound once setup has made its request, the request has been served and the channel is open.
  */
  lemma BoundExactlyOnce(steps: seq<Step>, i: nat)
    requires i < |After(steps).conns|
    ensures var s := After(steps); var c := s.conns[i];
            && Count(s.log, Issued(i)) <= 1
            && (c.setup == BindRequested && c.callbacks == 0 && c.h.channelOpen ==> Count(s.log, Issued(i)) == 1)
  {
    RunKeeps(steps);
    assert ConnInv(After(steps), i);
  }

  /**
    With its queue drained, a connection has been shut down exactly when one of its two index
    checks came after the write, or a kick came after the broker had applied its binding.
  */
  lemma ClosedIffHit(steps: seq<Step>, i: nat)
    requires var s := After(steps);
             i < |s.conns| && s.conns[i].inbox == [] && s.conns[i].h.serial.Some?
    ensures var s := After(steps);
            s.conns[i].h.shutdown <==> Hit(s.log, i, s.conns[i].h.serial.value)
  {
    RunKeeps(steps);
    assert ConnInv(After(steps), i);
  }

  /** The write comes before the check, or the binding before the kick. */
  lemma OneWayOrTheOther(log: seq<Event>, i: nat, serial: string)
    requires Precedes(log, Applied(i), Checked(i)) && Precedes(log, Wrote(serial), Published(serial))
    ensures Precedes(log, Wrote(serial), Checked(i)) || Precedes(log, Applied(i), Published(serial))
  {
    var a, c :| 0 <= a < c < |log| && log[a] == Applied(i) && log[c] == Checked(i);
    var w, p :| 0 <= w < p < |log| && log[w] == Wrote(serial) && log[p] == Published(serial);
    if w < c {
      assert Precedes(log, Wrote(serial), Checked(i));
    } else {
      assert Precedes(log, Applied(i), Published(serial));
    }
  }

  /**
    No lost revocation: if the broker applied the binding before the check that follows it, then a
    serial that is revoked and kicked, whenever that happens, leaves the connection shut down.
  */
  lemma NoLostRevocation(steps: seq<Step>, i: nat)
    requires var s := After(steps);
             && i < |s.conns| && s.conns[i].inbox == [] && s.conns[i].h.serial.Some?
             && Precedes(s.log, Applied(i), Checked(i))
             && Published(s.conns[i].h.serial.value) in s.log
    ensures After(steps).conns[i].h.shutdown
  {
    RunKeeps(steps);
    var s := After(steps);
    var log, serial := s.log, s.conns[i].h.serial.value;
    assert ConnInv(s, i);
    OneWayOrTheOther(log, i, serial);
  }

  /** A revocation written before the check closes the connection without any kick. */
  lemma RevokedBeforeCheck(steps: seq<Step>, i: nat)
    requires var s := After(steps);
             && i < |s.conns| && s.conns[i].h.serial.Some?
             && Precedes(s.log, Wrote(s.conns[i].h.serial.value), Checked(i)) && s.conns[i].inbox == []
    ensures After(steps).conns[i].h.shutdown
  {
    ClosedIffHit(steps, i);
  }

  /** The schedule in which the bind command is still under way when the check reads the index. */
  function LateBindingRun(): seq<Step> {
    [Connect, OpenChannel(0), LearnSerial(0, "A"), CheckInSetup(0), RequestBind(0), RunCallback(0),
     CheckAfterBind(0), Step.Revoke("A"), Publish("A"), ApplyBind(0)]
  }

  /** The second half: check, write, publish, and only then the binding. */
  lemma LateBinding(s: State)
    requires |s.conns| == 1 && s.conns[0].inbox == [] && s.conns[0].checking && !s.conns[0].atBroker && s.revoked == {}
    requires s.conns[0].h.serial == Some("A") && !s.conns[0].h.shutdown && s.conns[0].h.certBound
    ensures var r := Next(Next(Next(Next(s, CheckAfterBind(0)), Step.Revoke("A")), Publish("A")), ApplyBind(0));
            && |r.conns| == 1 && r.conns[0] == s.conns[0].(checking := false, atBroker := true)
            && r.log == s.log + [Checked(0), Wrote("A"), Published("A"), Applied(0)]
  {
  }

  /** There the kick finds no queue and the check found nothing: the connection stays. */
  lemma LateBindingMissesKick()
    ensures var s := After(LateBindingRun());
            && |s.conns| == 1 && s.conns[0].inbox == [] && s.conns[0].h.serial == Some("A")
            && Precedes(s.log, Checked(0), Applied(0)) && Published("A") in s.log
            && !s.conns[0].h.shutdown
  {
    var t := LateBindingRun();
    var half := Half();
    LateBinding(half);
    assert t[..6] == [Connect, OpenChannel(0), LearnSerial(0, "A"), CheckInSetup(0), RequestBind(0), RunCallback(0)];
    assert t[..7][..6] == t[..6] && t[..8][..7] == t[..7] && t[..9][..8] == t[..8] && t[..9] == t[..|t| - 1];
    assert After(t[..7]) == Next(half, CheckAfterBind(0));
    assert After(t[..8]) == Next(After(t[..7]), Step.Revoke("A"));
    assert After(t[..9]) == Next(After(t[..8]), Publish("A"));
    var s := After(t);
    var n := |half.log|;
    assert s.log[n] == Checked(0) && s.log[n + 3] == Applied(0) && s.log[n + 2] == Published("A");
  }

  lemma AfterOneMore(steps: seq<Step>, step: Step)
    ensures After(steps + [step]) == Next(After(steps), step)
  {
    assert (steps + [step])[..|steps|] == steps;
  }

  /** The first connection with an open channel and serial A. */
  lemma FirstKnowsSerial()
    ensures After([Connect, OpenChannel(0), LearnSerial(0, "A")])
         == State([Conn(NewHandler(0).(channelOpen := true, serial := Some("A")), SerialKnown, 0, false, false, [])], {}, [])
  {
    assert [] + [Connect] == [Connect] && [Connect] + [OpenChannel(0)] == [Connect, OpenChannel(0)];
    assert [Connect, OpenChannel(0)] + [LearnSerial(0, "A")] == [Connect, OpenChannel(0), LearnSerial(0, "A")];
    AfterOneMore([], Connect);
    AfterOneMore([Connect], OpenChannel(0));
    AfterOneMore([Connect, OpenChannel(0)], LearnSerial(0, "A"));
    assert After([Connect]).conns == [Conn(NewHandler(0), Handshaking, 0, false, false, [])];
  }

  /** From there the setup's check passes and the callback issues the binding. */
  lemma Binding(s: State)
    requires s == State([Conn(NewHandler(0).(channelOpen := true, serial := Some("A")), SerialKnown, 0, false, false, [])], {}, [])
    ensures var r := Next(Next(Next(s, CheckInSetup(0)), RequestBind(0)), RunCallback(0));
            && |r.conns| == 1 && r.conns[0].inbox == [] && r.conns[0].checking && !r.conns[0].atBroker && r.revoked == {}
            && r.conns[0].h.serial == Some("A") && !r.conns[0].h.shutdown && r.conns[0].h.certBound
  {
  }

  lemma Half() returns (s: State)
    ensures s == After([Connect, OpenChannel(0), LearnSerial(0, "A"), CheckInSetup(0), RequestBind(0), RunCallback(0)])
    ensures |s.conns| == 1 && s.conns[0].inbox == [] && s.conns[0].checking && !s.conns[0].atBroker && s.revoked == {}
    ensures s.conns[0].h.serial == Some("A") && !s.conns[0].h.shutdown && s.conns[0].h.certBound
  {
    var a := [Connect, OpenChannel(0), LearnSerial(0, "A")];
    var b := a + [CheckInSetup(0)];
    var c := b + [RequestBind(0)];
    FirstKnowsSerial();
    AfterOneMore(a, CheckInSetup(0));
    AfterOneMore(b, RequestBind(0));
    AfterOneMore(c, RunCallback(0));
    Binding(After(a));
    assert c + [RunCallback(0)] == [Connect, OpenChannel(0), LearnSerial(0, "A"), CheckInSetup(0), RequestBind(0), RunCallback(0)];
    s := After(c + [RunCallback(0)]);
  }
}
