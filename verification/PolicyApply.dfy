/**
  Bringing a changed policy into force (raven/fedhub_partners.py, apply_policy): save, activate,
  read back, and on any failure put the previous policy back, on a hub whose every call may fail
  and whose state may change even when a call fails.
*/
module PolicyApply {
  import opened Wrappers
  import opened PolicyGraph
  import opened Sets

  datatype Policy = Policy(name: string, version: string, graph: Graph)

  /** What happens at the n-th call: whether it fails, and (for a write) what is in force after it. */
  datatype Answer = Answer(fault: Option<string>, active: Option<Policy>)

  datatype Call = Save(policy: Policy) | Activate(name: string) | Read

  /** The hub admin API. A read reports what is in force and changes nothing. */
  class Hub {
    const answers: nat -> Answer
    var active: Option<Policy>
    var calls: seq<Call>

    constructor (answers: nat -> Answer, active: Option<Policy>)
      ensures this.answers == answers && this.active == active && calls == []
    {
      this.answers, this.active, this.calls := answers, active, [];
    }

    method SavePolicy(policy: Policy) returns (fault: Option<string>)
      modifies this
      ensures calls == old(calls) + [Save(policy)]
      ensures fault == answers(|old(calls)|).fault && active == answers(|old(calls)|).active
    {
      var answer := answers(|calls|);
      fault, active, calls := answer.fault, answer.active, calls + [Save(policy)];
    }

    method ActivatePolicy(name: string) returns (fault: Option<string>)
      modifies this
      ensures calls == old(calls) + [Activate(name)]
      ensures fault == answers(|old(calls)|).fault && active == answers(|old(calls)|).active
    {
      var answer := answers(|calls|);
      fault, active, calls := answer.fault, answer.active, calls + [Activate(name)];
    }

    method ActivePolicy() returns (r: Result<Option<Policy>, string>)
      modifies this`calls
      ensures calls == old(calls) + [Read]
      ensures r == match answers(|old(calls)|).fault case Some(code) => Failure(code) case None => Success(active)
    {
      var fault := answers(|calls|).fault;
      calls := calls + [Read];
      r := match fault case Some(code) => Failure(code) case None => Success(active);
    }
  }

  datatype Outcome =
    | Applied(active: Policy)
    | Refused(code: string, undoSafe: bool)

  /** prepare_for_save */
  function Prepared(p: Policy): Policy {
    if p.version == "" then p.(version := "v3") else p
  }

  /** The same name and the same entity ids. */
  predicate SamePolicy(active: Option<Policy>, wanted: Policy) {
    active.Some? && active.value.name == wanted.name
    && IdsOf(active.value.graph.entities) == IdsOf(wanted.graph.entities)
  }

  /** The hub enforces the new policy: the same one, and with the own node if that was enabled in it. */
  predicate Enforced(active: Option<Policy>, wanted: Policy, ownUid: string) {
    SamePolicy(active, wanted)
    && (OwnNodeEnabled(wanted.graph.entities, ownUid) ==> OwnNodeEnabled(active.value.graph.entities, ownUid))
  }

  /** The three calls from the n-th on succeed. */
  predicate NoFault(answers: nat -> Answer, n: nat) {
    answers(n).fault.None? && answers(n + 1).fault.None? && answers(n + 2).fault.None?
  }

  /** The calls of one try to bring a policy into force from the n-th call on: cut off after the first that fails. */
  function Made(answers: nat -> Answer, n: nat, policy: Policy): seq<Call> {
    if answers(n).fault.Some? then [Save(policy)]
    else if answers(n + 1).fault.Some? then [Save(policy), Activate(policy.name)]
    else [Save(policy), Activate(policy.name), Read]
  }

  /** What a try that fails is refused with: the first call's fault, or that the hub enforces something else. */
  function FirstFault(answers: nat -> Answer, n: nat): Option<string> {
    if answers(n).fault.Some? then answers(n).fault
    else if answers(n + 1).fault.Some? then answers(n + 1).fault
    else if answers(n + 2).fault.Some? then answers(n + 2).fault
    else Some("not_applied")
  }

  /** The save, activate and confirm stages; none is reached after a failed one. */
  method Attempt(hub: Hub, policy: Policy, ownUid: string)
    returns (error: Option<string>, activateCalled: bool)
    modifies hub
    ensures hub.calls == old(hub.calls) + Made(hub.answers, |old(hub.calls)|, policy)
    ensures activateCalled <==> hub.answers(|old(hub.calls)|).fault.None?
    ensures error.None? ==> hub.active == hub.answers(|old(hub.calls)| + 1).active
    ensures error.None? <==>
              && NoFault(hub.answers, |old(hub.calls)|)
              && Enforced(hub.answers(|old(hub.calls)| + 1).active, policy, ownUid)
    ensures error.Some? ==> error == FirstFault(hub.answers, |old(hub.calls)|)
  {
    error := hub.SavePolicy(policy);
    if error.Some? {
      return error, false;
    }
    error := hub.ActivatePolicy(policy.name);
    activateCalled := true;
    if error.Some? {
      return;
    }
    var read := hub.ActivePolicy();
    match read
    case Failure(code) => error := Some(code);
    case Success(active) =>
      error := if Enforced(active, policy, ownUid) then None else Some("not_applied");
  }

  /** Saves, activates and re-reads the previous policy. */
  method Restore(hub: Hub, previous: Policy) returns (restored: bool)
    modifies hub
    ensures hub.calls == old(hub.calls) + Made(hub.answers, |old(hub.calls)|, Prepared(previous))
    ensures restored <==> NoFault(hub.answers, |old(hub.calls)|) && SamePolicy(hub.answers(|old(hub.calls)| + 1).active, previous)
    ensures restored ==> hub.active == hub.answers(|old(hub.calls)| + 1).active
  {
    var fault := hub.SavePolicy(Prepared(previous));
    if fault.Some? { return false; }
    fault := hub.ActivatePolicy(previous.name);
    if fault.Some? { return false; }
    var read := hub.ActivePolicy();
    restored := read.Success? && SamePolicy(read.value, previous);
  }

  /**
    apply_policy. First the new policy is saved, activated and read back; that is returned exactly if no
    call fails and the hub enforces it. Otherwise the previous policy, if there is one, is saved, activated
    and read back in turn, and undoing is safe exactly if no call of that fails and the hub enforces it
    again. Without one, undoing is safe exactly if the save failed, so that nothing was activated.
  */
  method ApplyPolicy(hub: Hub, newPolicy: Policy, previous: Option<Policy>, ownUid: string) returns (r: Outcome)
    modifies hub
    ensures var n, p, a := |old(hub.calls)|, newPolicy.(version := if newPolicy.version == "" then "v3" else newPolicy.version), hub.answers;
            var tried := if a(n).fault.Some? then [Save(p)] else if a(n + 1).fault.Some? then [Save(p), Activate(p.name)]
                         else [Save(p), Activate(p.name), Read];
            var m := n + |tried|;
            && (r.Applied? <==>
                  && a(n).fault.None? && a(n + 1).fault.None? && a(n + 2).fault.None?
                  && a(n + 1).active.Some? && a(n + 1).active.value.name == newPolicy.name
                  && IdsOf(a(n + 1).active.value.graph.entities) == IdsOf(newPolicy.graph.entities)
                  && (OwnNodeEnabled(newPolicy.graph.entities, ownUid) ==> OwnNodeEnabled(a(n + 1).active.value.graph.entities, ownUid)))
            && (r.Applied? ==> hub.calls == old(hub.calls) + tried && hub.active == Some(r.active) == a(n + 1).active)
            && (r.Refused? && previous.None? ==>
                  && hub.calls == old(hub.calls) + tried && (r.undoSafe <==> a(n).fault.Some?)
                  && r.code == if r.undoSafe then a(n).fault.value else "partially_applied")
            && (r.Refused? && previous.Some? ==>
                  var q := previous.value.(version := if previous.value.version == "" then "v3" else previous.value.version);
                  && hub.calls == old(hub.calls) + tried
                                  + (if a(m).fault.Some? then [Save(q)] else if a(m + 1).fault.Some? then [Save(q), Activate(q.name)]
                                     else [Save(q), Activate(q.name), Read])
                  && (r.undoSafe <==>
                        && a(m).fault.None? && a(m + 1).fault.None? && a(m + 2).fault.None?
                        && a(m + 1).active.Some? && a(m + 1).active.value.name == q.name
                        && IdsOf(a(m + 1).active.value.graph.entities) == IdsOf(q.graph.entities))
                  && (r.undoSafe ==> hub.active == a(m + 1).active)
                  && Some(r.code) == if r.undoSafe then FirstFault(a, n) else Some("rollback_failed"))
  {
    var policy := Prepared(newPolicy);
    var error, activateCalled := Attempt(hub, policy, ownUid);
    if error.None? {
      return Applied(hub.active.value);
    }
    if previous.Some? {
      var restored := Restore(hub, previous.value);
      return if restored then Refused(error.value, true) else Refused("rollback_failed", false);
    }
    return if activateCalled then Refused("partially_applied", false) else Refused(error.value, true);
  }

  // --- a name for a first policy ---

  function Digit(n: nat): char
    requires n < 10
  {
    "0123456789"[n]
  }

  function Decimal(n: nat): string {
    if n < 10 then [Digit(n)] else Decimal(n / 10) + [Digit(n % 10)]
  }

  function DigitValue(c: char): nat {
    if '0' <= c <= '9' then (c - '0') as nat else 0
  }

  function DecimalValue(s: string): nat {
    if s == "" then 0 else 10 * DecimalValue(s[..|s| - 1]) + DigitValue(s[|s| - 1])
  }

  lemma DigitValueOfDigit(n: nat)
    requires n < 10
    ensures DigitValue(Digit(n)) == n
  {
  }

  lemma {:induction false} DecimalRoundTrip(n: nat)
    ensures DecimalValue(Decimal(n)) == n
  {
    DigitValueOfDigit(n % 10);
    if n < 10 {
      assert Decimal(n)[..0] == "";
    } else {
      DecimalRoundTrip(n / 10);
      assert Decimal(n)[..|Decimal(n)| - 1] == Decimal(n / 10);
    }
  }

  function Numbered(base: string, n: nat): string {
    base + "-" + Decimal(n)
  }

  lemma NumberedIsInjective(base: string, a: nat, b: nat)
    requires Numbered(base, a) == Numbered(base, b)
    ensures a == b
  {
    assert Numbered(base, a)[|base + "-"|..] == Decimal(a);
    assert Numbered(base, b)[|base + "-"|..] == Decimal(b);
    DecimalRoundTrip(a);
    DecimalRoundTrip(b);
  }

  /** unique_policy_name: stops, with the base name if that is free, else with the first free number. */
  method UniquePolicyName(taken: set<string>, base: string) returns (name: string)
    ensures name !in taken
    ensures base !in taken ==> name == base
    ensures base in taken ==>
              exists n: nat :: 2 <= n <= |taken| + 1 && name == Numbered(base, n)
                               && forall m: nat | 2 <= m < n :: Numbered(base, m) in taken
  {
    if base !in taken {
      return base;
    }
    var n := 2;
    ghost var seen: set<string> := {};
    while Numbered(base, n) in taken
      invariant n >= 2 && |seen| == n - 2
      invariant seen <= taken && base !in seen
      invariant forall m: nat | 2 <= m < n :: Numbered(base, m) in taken
      invariant forall s | s in seen :: exists m: nat :: 2 <= m < n && s == Numbered(base, m)
      decreases |taken| + 2 - n
    {
      if Numbered(base, n) in seen {
        var m: nat :| 2 <= m < n && Numbered(base, n) == Numbered(base, m);
        NumberedIsInjective(base, m, n);
      }
      seen := seen + {Numbered(base, n)};
      FewerThanTaken(seen, taken, base);
      n := n + 1;
    }
    name := Numbered(base, n);
    FewerThanTaken(seen, taken, base);
  }

  lemma FewerThanTaken(seen: set<string>, taken: set<string>, base: string)
    requires seen <= taken && base in taken && base !in seen
    ensures |seen| < |taken|
  {
    SubsetSize(seen, taken - {base});
  }
}
