/**
  One device connection (raven/eud_handler/EudHandler.py and EudHandlerSSL.py): the fields a
  handler process changes when control messages arrive, when its RabbitMQ channel opens, when its
  client certificate becomes known and when it closes.
*/
module EudHandlers {
  import opened Wrappers

  /** A message on an eud_control queue, already parsed. */
  datatype Control =
    | Supersede(uid: string, sender: nat)
    | Disconnect(uid: string)
    | Revoke(serial: string)
    | Unknown(uid: string)

  /**
    token is conn_token; tags are the consumers of the shared uid and callsign queues; certBound is
    cert_control_bound; shutdown is the flag handle() loops on; socketOpen says whether close or a
    disconnect request has shut the device's socket down.
  */
  datatype Handler = Handler(
    uid: Option<string>, token: nat, superseded: bool, tags: seq<string>,
    serial: Option<string>, certBound: bool, channelOpen: bool, shutdown: bool, socketOpen: bool)

  function NewHandler(token: nat): Handler {
    Handler(None, token, false, [], None, false, false, false, true)
  }

  /** close_connection: a superseded handler only closes its channel and sets its flag. */
  function AfterClose(h: Handler): Handler {
    if h.shutdown then h
    else if h.superseded then h.(channelOpen := false, shutdown := true)
    else h.(channelOpen := false, shutdown := true, socketOpen := false)
  }

  /** Whether closing unbinds the shared queues and marks the device Disconnected. */
  predicate CloseTakesQueues(h: Handler) {
    !h.shutdown && !h.superseded && h.uid.Some?
  }

  /** on_control_message */
  function AfterControl(h: Handler, m: Control): Handler {
    match m
    case Revoke(serial) => if h.serial == Some(serial) then AfterClose(h) else h
    case Supersede(uid, sender) =>
      if h.uid != Some(uid) || sender == h.token then h else h.(superseded := true, tags := [])
    case Disconnect(uid) =>
      if h.uid != Some(uid) then h else h.(superseded := true, tags := [], socketOpen := false)
    case Unknown(_) => h
  }

  /** bind_cert_control_queue up to and including basic_consume: at most once, when both are there. */
  predicate MayBindCert(h: Handler) {
    !h.certBound && h.serial.Some? && h.serial.value != "" && h.channelOpen
  }

  function AfterBindCert(h: Handler): Handler {
    if MayBindCert(h) then h.(certBound := true) else h
  }

  /** The index check that follows a binding, and the one in setup(). */
  function AfterIndexCheck(h: Handler, revoked: set<string>): Handler {
    if h.serial.Some? && h.serial.value in revoked then AfterClose(h) else h
  }

  /** A message that makes this connection step aside. */
  predicate HitBy(h: Handler, m: Control) {
    (m.Disconnect? && h.uid == Some(m.uid)) || (m.Supersede? && h.uid == Some(m.uid) && m.sender != h.token)
  }

  // --- the life of a handler ---

  /** What may happen to a handler, in any order. */
  datatype Act =
    | Closes
    | Hears(m: Control)
    | ChannelUp(revoked: set<string>)
    | CertRequest(revoked: set<string>)
    | CertKnown(serial: string, revoked: set<string>)

  function AfterBinding(h: Handler, revoked: set<string>): Handler {
    if MayBindCert(h) then AfterIndexCheck(AfterBindCert(h), revoked) else h
  }

  function AfterAct(h: Handler, act: Act): Handler {
    match act
    case Closes => AfterClose(h)
    case Hears(m) => AfterControl(h, m)
    case ChannelUp(revoked) => AfterBinding(h.(channelOpen := true), revoked)
    case CertRequest(revoked) => AfterBinding(h, revoked)
    case CertKnown(serial, revoked) => AfterIndexCheck(h.(serial := Some(serial)), revoked)
  }

  function AfterActs(h: Handler, acts: seq<Act>): Handler {
    if acts == [] then h else AfterAct(AfterActs(h, acts[..|acts| - 1]), acts[|acts| - 1])
  }

  /** The act closes the connection and so unbinds the shared queues. */
  predicate TakesQueues(h: Handler, act: Act) {
    CloseTakesQueues(h) && AfterAct(h, act).shutdown
  }

  function Taken(h: Handler, acts: seq<Act>): nat {
    if acts == [] then 0
    else Taken(h, acts[..|acts| - 1]) + if TakesQueues(AfterActs(h, acts[..|acts| - 1]), acts[|acts| - 1]) then 1 else 0
  }

  /** The act declares and binds the cert queue. */
  predicate Binds(h: Handler, act: Act) {
    !h.certBound && AfterAct(h, act).certBound
  }

  function Bindings(h: Handler, acts: seq<Act>): nat {
    if acts == [] then 0
    else Bindings(h, acts[..|acts| - 1]) + if Binds(AfterActs(h, acts[..|acts| - 1]), acts[|acts| - 1]) then 1 else 0
  }

  /** Stepping aside, shutting down and having bound the cert queue are never undone. */
  predicate Forward(h: Handler, after: Handler) {
    && after.uid == h.uid && after.token == h.token
    && (h.superseded ==> after.superseded) && (h.shutdown ==> after.shutdown) && (h.certBound ==> after.certBound)
  }

  lemma ActGoesForward(h: Handler, act: Act)
    ensures Forward(h, AfterAct(h, act))
  {
    match act
    case Hears(m) =>
    case _ =>
  }

  lemma {:induction false} LifeGoesForward(h: Handler, acts: seq<Act>)
    ensures Forward(h, AfterActs(h, acts))
  {
    if acts != [] {
      LifeGoesForward(h, acts[..|acts| - 1]);
      ActGoesForward(AfterActs(h, acts[..|acts| - 1]), acts[|acts| - 1]);
    }
  }

  /** Over any life a handler unbinds the shared queues at most once, only as it shuts down, and never once it has stepped aside. */
  lemma {:induction false} QueuesTakenAtMostOnce(h: Handler, acts: seq<Act>)
    ensures Taken(h, acts) <= 1
    ensures Taken(h, acts) == 1 ==> AfterActs(h, acts).shutdown
    ensures h.superseded || h.shutdown ==> Taken(h, acts) == 0
  {
    if acts != [] {
      QueuesTakenAtMostOnce(h, acts[..|acts| - 1]);
      LifeGoesForward(h, acts[..|acts| - 1]);
      ActGoesForward(AfterActs(h, acts[..|acts| - 1]), acts[|acts| - 1]);
    }
  }

  /** Over any life the cert queue is bound at most once, and exactly once if the flag went from unset to set. */
  lemma {:induction false} CertBoundAtMostOnce(h: Handler, acts: seq<Act>)
    ensures Bindings(h, acts) == (if !h.certBound && AfterActs(h, acts).certBound then 1 else 0)
  {
    if acts != [] {
      CertBoundAtMostOnce(h, acts[..|acts| - 1]);
      LifeGoesForward(h, acts[..|acts| - 1]);
    }
  }

  predicate HeardHit(h: Handler, acts: seq<Act>) {
    exists k | 0 <= k < |acts| :: acts[k].Hears? && HitBy(h, acts[k].m)
  }

  lemma ActStepsAside(h: Handler, act: Act)
    ensures AfterAct(h, act).superseded <==> h.superseded || (act.Hears? && HitBy(h, act.m))
    ensures AfterAct(h, act).tags == if act.Hears? && HitBy(h, act.m) then [] else h.tags
  {
  }

  /** Over any life a handler steps aside and stops consuming the shared queues exactly if it heard a hit. */
  lemma {:induction false} StopsConsumingIffHit(h: Handler, acts: seq<Act>)
    ensures AfterActs(h, acts).superseded <==> h.superseded || HeardHit(h, acts)
    ensures AfterActs(h, acts).tags == if HeardHit(h, acts) then [] else h.tags
  {
    if acts != [] {
      var front, last := acts[..|acts| - 1], acts[|acts| - 1];
      StopsConsumingIffHit(h, front);
      LifeGoesForward(h, front);
      ActStepsAside(AfterActs(h, front), last);
      assert HeardHit(h, front) ==> HeardHit(h, acts);
      assert last.Hears? && HitBy(h, last.m) ==> HeardHit(h, acts);
      assert HeardHit(h, acts) ==> HeardHit(h, front) || (last.Hears? && HitBy(h, last.m));
    }
  }

  class EudHandler {
    var uid: Option<string>
    const token: nat
    var superseded: bool
    var tags: seq<string>
    var serial: Option<string>
    var certBound: bool
    var channelOpen: bool
    var shutdown: bool
    var socketOpen: bool

    constructor (token: nat)
      ensures State() == NewHandler(token)
    {
      this.token := token;
      uid, superseded, tags, serial := None, false, [], None;
      certBound, channelOpen, shutdown, socketOpen := false, false, false, true;
    }

    function State(): Handler
      reads this
    {
      Handler(uid, token, superseded, tags, serial, certBound, channelOpen, shutdown, socketOpen)
    }

    /**
      Returns whether it unbound the shared queues and wrote the Disconnected status: only the first
      close does, and never that of a handler that has stepped aside. Closing again changes nothing.
    */
    method CloseConnection() returns (tookQueues: bool)
      modifies this
      ensures State() == AfterClose(old(State()))
      ensures shutdown && (old(shutdown) ==> State() == old(State()) && !tookQueues)
      ensures superseded == old(superseded) && (superseded ==> !tookQueues && socketOpen == old(socketOpen))
      ensures tookQueues ==> uid.Some? && !channelOpen && !socketOpen
      ensures !old(shutdown) && !superseded && uid.Some? ==> tookQueues
      ensures tags == old(tags) && serial == old(serial) && certBound == old(certBound)
    {
      if shutdown {
        return false;
      }
      if superseded {
        channelOpen := false;
        shutdown := true;
        return false;
      }
      tookQueues := uid.Some?;
      channelOpen := false;
      shutdown := true;
      socketOpen := false;
    }

    /** Steps aside exactly for a hit, shuts down exactly for a kick of its own serial, and neither is ever undone. */
    method OnControlMessage(m: Control)
      modifies this
      ensures State() == AfterControl(old(State()), m)
      ensures var hit := (m.Disconnect? && uid == Some(m.uid)) || (m.Supersede? && uid == Some(m.uid) && m.sender != token);
              && (superseded <==> old(superseded) || hit)
              && tags == if hit then [] else old(tags)
      ensures shutdown <==> old(shutdown) || (m.Revoke? && serial == Some(m.serial))
      ensures m.Supersede? ==> socketOpen == old(socketOpen)
      ensures m.Disconnect? && uid == Some(m.uid) ==> !socketOpen
      ensures uid == old(uid) && serial == old(serial) && certBound == old(certBound)
    {
      if m.Revoke? {
        if serial == Some(m.serial) {
          var _ := CloseConnection();
        }
        return;
      }
      if uid != Some(m.uid) {
        return;
      }
      if m.Supersede? {
        if m.sender == token {
          return;
        }
        superseded, tags := true, [];
      } else if m.Disconnect? {
        superseded, tags := true, [];
        socketOpen := false;
      }
    }

    /** Returns whether the queue was declared, bound and consumed by this call. */
    method BindCertControlQueue(revoked: set<string>) returns (bound: bool)
      modifies this
      ensures bound <==> !old(certBound) && old(serial).Some? && old(serial).value != "" && old(channelOpen)
      ensures State() == if bound then AfterIndexCheck(AfterBindCert(old(State())), revoked) else old(State())
      ensures bound <==> !old(certBound) && certBound
      ensures bound && serial.value in revoked ==> shutdown
      ensures !(bound && serial.value in revoked) ==> shutdown == old(shutdown)
    {
      if certBound || serial.None? || serial.value == "" || !channelOpen {
        return false;
      }
      certBound := true;
      if serial.value in revoked {
        var _ := CloseConnection();
      }
      return true;
    }

    method OnChannelOpen(revoked: set<string>) returns (bound: bool)
      modifies this
      ensures var ready := old(State()).(channelOpen := true);
              && bound == MayBindCert(ready)
              && State() == if bound then AfterIndexCheck(AfterBindCert(ready), revoked) else ready
      ensures certBound <==> old(certBound) || (serial.Some? && serial.value != "")
      ensures old(certBound) ==> !bound && shutdown == old(shutdown)
    {
      channelOpen := true;
      bound := BindCertControlQueue(revoked);
    }

    /** EudHandlerSSL.setup after the handshake; requests the binding unless the cert is revoked. */
    method Setup(certSerial: Option<string>, revoked: set<string>) returns (requested: bool)
      requires certSerial != Some("")
      modifies this
      ensures State() == AfterIndexCheck(old(State()).(serial := certSerial), revoked)
      ensures requested == !(certSerial.Some? && certSerial.value in revoked)
      ensures !requested ==> shutdown
      ensures requested ==> shutdown == old(shutdown) && serial == certSerial
    {
      serial := certSerial;
      if serial.Some? && serial.value in revoked {
        var _ := CloseConnection();
        return false;
      }
      return true;
    }
  }
}
