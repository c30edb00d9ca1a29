/**
  Services counting and flushing at once (raven/metrics.py): increments by forked workers, a
  snapshot read slot by slot while they go on, flushes that succeed or fail, and counters the web
  app records directly.
*/
module MetricsRuns {
  import opened Wrappers
  import opened Metrics

  /**
    keys are the rendered keys of the service's counters; made is how much was counted on each,
    values the shared slots, seen the part of a snapshot that has been read.
  */
  datatype Service = Service(keys: seq<Key>, made: seq<int>, values: seq<int>, flushed: seq<int>, seen: Option<seq<int>>)

  /** table is metric_counters; direct is what record() added to it, initial what it held to begin with. */
  datatype State = State(services: seq<Service>, table: map<Key, int>, initial: map<Key, int>, direct: map<Key, int>)

  datatype Step =
    | Inc(s: nat, i: nat, amount: int)
    | Begin(s: nat)
    | Read(s: nat)
    | Succeed(s: nat)
    | Fail(s: nat)
    | Record(key: Key, amount: int)

  predicate Shaped(service: Service) {
    && |service.made| == |service.values| == |service.flushed| == |service.keys|
    && (service.seen.Some? ==> |service.seen.value| <= |service.keys|)
  }

  predicate CanTake(service: Service, step: Step) {
    Shaped(service) &&
    match step
    case Inc(_, i, amount) => i < |service.keys| && amount > 0
    case Begin(_) => service.seen.None?
    case Read(_) => service.seen.Some? && |service.seen.value| < |service.keys|
    case Succeed(_) => service.seen.Some? && |service.seen.value| == |service.keys|
    case Fail(_) => service.seen.Some?
    case Record(_, _) => true
  }

  predicate Enabled(st: State, step: Step) {
    if step.Record? then step.amount > 0
    else step.s < |st.services| && CanTake(st.services[step.s], step)
  }

  function AfterService(service: Service, step: Step): Service
    requires CanTake(service, step)
  {
    match step
    case Inc(_, i, amount) =>
      service.(made := service.made[i := service.made[i] + amount],
               values := service.values[i := (service.values[i] + amount) % WORD])
    case Begin(_) => service.(seen := Some([]))
    case Read(_) => service.(seen := Some(service.seen.value + [service.values[|service.seen.value|]]))
    case Succeed(_) => service.(flushed := service.seen.value, seen := None)
    case Fail(_) => service.(seen := None)
    case Record(_, _) => service
  }

  function After(st: State, step: Step): State
    requires Enabled(st, step)
  {
    if step.Record? then
      st.(table := Added(st.table, map[step.key := step.amount]), direct := Added(st.direct, map[step.key := step.amount]))
    else
      var service := st.services[step.s];
      st.(services := st.services[step.s := AfterService(service, step)],
          table := if step.Succeed? then Added(st.table, Growth(service.keys, service.flushed, service.seen.value)) else st.table)
  }

  ghost predicate IsRun(st: State, steps: seq<Step>)
    decreases |steps|
  {
    steps == [] || (Enabled(st, steps[0]) && IsRun(After(st, steps[0]), steps[1..]))
  }

  ghost function Outcome(st: State, steps: seq<Step>): State
    requires IsRun(st, steps)
    decreases |steps|
  {
    if steps == [] then st else Outcome(After(st, steps[0]), steps[1..])
  }

  function Zeros(n: nat): (z: seq<int>)
    ensures |z| == n && forall i | 0 <= i < n :: z[i] == 0
  {
    seq(n, _ => 0)
  }

  /** Services start with nothing counted and nothing flushed. */
  ghost predicate IsStart(st: State) {
    && st.table == st.initial && st.direct == map[]
    && forall s | 0 <= s < |st.services| ::
         var service := st.services[s];
         var z := Zeros(|service.keys|);
         Distinct(service.keys) && service == Service(service.keys, z, z, z, None)
  }

  // --- what every step keeps ---

  ghost predicate Below(service: Service) {
    forall i | 0 <= i < |service.made| :: service.made[i] < WORD
  }

  /** Until a counter passes 2^64, what is flushed never runs ahead of what was seen, nor that of what was counted. */
  ghost predicate Sound(service: Service) {
    && Shaped(service) && Distinct(service.keys)
    && (forall i | 0 <= i < |service.keys| :: 0 <= service.made[i] && service.values[i] == service.made[i] % WORD)
    && (Below(service) ==>
          && (forall i | 0 <= i < |service.keys| :: 0 <= service.flushed[i] <= service.values[i])
          && (service.seen.Some? ==> forall i | 0 <= i < |service.seen.value| ::
                service.flushed[i] <= service.seen.value[i] <= service.values[i]))
  }

  ghost function Flushed(services: seq<Service>, key: Key): int
    requires forall s | s in services :: Shaped(s)
  {
    if services == [] then 0
    else
      var last := services[|services| - 1];
      assert last in services && Shaped(last);
      Flushed(services[..|services| - 1], key) + At(last.keys, last.flushed, key)
  }

  ghost function Made(services: seq<Service>, key: Key): int
    requires forall s | s in services :: Shaped(s)
  {
    if services == [] then 0
    else
      var last := services[|services| - 1];
      assert last in services && Shaped(last);
      Made(services[..|services| - 1], key) + At(last.keys, last.made, key)
  }

  ghost predicate AllSound(st: State) {
    forall s | s in st.services :: Sound(s)
  }

  ghost predicate NoWrap(st: State) {
    forall s | s in st.services :: Below(s)
  }

  /** Every stored counter is what it was, plus what was recorded directly, plus what each service has flushed. */
  ghost predicate Balanced(st: State)
    requires AllFormed(st)
  {
    forall key :: Get(st.table, key) == Get(st.initial, key) + Get(st.direct, key) + Flushed(st.services, key)
  }

  lemma {:induction false} FlushedAfterUpdate(services: seq<Service>, j: nat, service: Service, key: Key)
    requires (forall s | s in services :: Shaped(s)) && Shaped(service) && j < |services| && Shaped(services[j])
    requires forall s | s in services[j := service] :: Shaped(s)
    ensures Flushed(services[j := service], key)
            == Flushed(services, key) - At(services[j].keys, services[j].flushed, key) + At(service.keys, service.flushed, key)
  {
    var n := |services| - 1;
    var front := services[..n];
    if j < n {
      assert services[j := service][..n] == front[j := service];
      forall s | s in front[j := service] ensures Shaped(s) {
        assert s in services || s == service;
      }
      FlushedAfterUpdate(front, j, service, key);
    } else {
      assert services[j := service][..n] == front;
    }
  }

  lemma ServiceStaysSound(service: Service, step: Step)
    requires Sound(service) && CanTake(service, step)
    ensures Sound(AfterService(service, step))
    ensures Below(AfterService(service, step)) ==> Below(service)
  {
    var after := AfterService(service, step);
    if step.Inc? {
      var i := step.i;
      ModAdd(service.made[i], step.amount);
      if Below(after) {
        forall j | 0 <= j < |service.made| ensures service.made[j] < WORD {
          assert after.made[j] < WORD;
        }
        forall j | 0 <= j < |service.keys| ensures after.values[j] >= service.values[j] {
          SmallMod(service.made[j]);
          SmallMod(after.made[j]);
        }
      }
    } else if Below(after) {
      assert forall j | 0 <= j < |service.made| :: after.made[j] == service.made[j];
    }
  }

  lemma SmallMod(a: int)
    requires 0 <= a < WORD
    ensures a % WORD == a
  {
  }

  lemma ModAdd(a: int, b: int)
    requires a >= 0 && b >= 0
    ensures (a % WORD + b) % WORD == (a + b) % WORD
  {
  }

  // --- the balance, whatever the counters do ---

  ghost predicate AllFormed(st: State) {
    forall s | s in st.services :: Shaped(s) && Distinct(s.keys)
  }

  /** How much more the table holds than the start, the direct records and the flushed counts explain. */
  ghost function Gap(st: State, key: Key): int
    requires AllFormed(st)
  {
    Get(st.table, key) - Get(st.initial, key) - Get(st.direct, key) - Flushed(st.services, key)
  }

  /** A flush that succeeds while some counter stands below what was flushed of it: the delta > 0 test fails, yet the lower value is recorded. */
  predicate Loses(st: State, step: Step)
    requires Enabled(st, step)
  {
    step.Succeed? && var service := st.services[step.s];
    exists i | 0 <= i < |service.keys| :: service.seen.value[i] < service.flushed[i]
  }

  ghost predicate NoLoss(st: State, steps: seq<Step>)
    requires IsRun(st, steps)
    decreases |steps|
  {
    steps == [] || (!Loses(st, steps[0]) && NoLoss(After(st, steps[0]), steps[1..]))
  }

  lemma StepKeepsFormed(st: State, step: Step)
    requires AllFormed(st) && Enabled(st, step)
    ensures AllFormed(After(st, step))
  {
    if !step.Record? {
      assert st.services[step.s] in st.services;
      forall s | s in After(st, step).services ensures Shaped(s) && Distinct(s.keys) {
        assert s in st.services || s == AfterService(st.services[step.s], step);
      }
    }
  }

  /** A step moves the gap by exactly what its flush lost. */
  lemma StepMovesGap(st: State, step: Step, key: Key)
    requires AllFormed(st) && Enabled(st, step) && AllFormed(After(st, step))
    ensures Gap(After(st, step), key) == Gap(st, key)
            + if step.Succeed? then At(st.services[step.s].keys, Lost(st.services[step.s].flushed, st.services[step.s].seen.value), key) else 0
  {
    if !step.Record? {
      var service := st.services[step.s];
      assert service in st.services;
      FlushedAfterUpdate(st.services, step.s, AfterService(service, step), key);
      if step.Succeed? {
        GrowthIsExact(service.keys, service.flushed, service.seen.value, key);
      }
    }
  }

  lemma LossIsVisible(st: State, step: Step)
    requires AllFormed(st) && Enabled(st, step) && AllFormed(After(st, step))
    ensures forall key :: Gap(After(st, step), key) >= Gap(st, key)
    ensures Loses(st, step) <==> exists key :: Gap(After(st, step), key) > Gap(st, key)
  {
    forall key ensures Gap(After(st, step), key) >= Gap(st, key)
      ensures !Loses(st, step) ==> Gap(After(st, step), key) == Gap(st, key)
    {
      StepMovesGap(st, step, key);
      if step.Succeed? {
        var service := st.services[step.s];
        var z := Zeros(|service.keys|);
        ZerosAreZero(service.keys, key);
        AtMonotone(service.keys, z, Lost(service.flushed, service.seen.value), key);
        if !Loses(st, step) {
          assert Lost(service.flushed, service.seen.value) == z;
        }
      }
    }
    if Loses(st, step) {
      var service := st.services[step.s];
      assert service in st.services;
      var i :| 0 <= i < |service.keys| && service.seen.value[i] < service.flushed[i];
      AtIndex(service.keys, Lost(service.flushed, service.seen.value), i);
      StepMovesGap(st, step, service.keys[i]);
      assert Gap(After(st, step), service.keys[i]) > Gap(st, service.keys[i]);
    }
  }

  lemma {:induction false} RunMovesGap(st: State, steps: seq<Step>)
    requires AllFormed(st) && IsRun(st, steps)
    ensures AllFormed(Outcome(st, steps))
    ensures forall key :: Gap(Outcome(st, steps), key) >= Gap(st, key)
    ensures NoLoss(st, steps) <==> forall key :: Gap(Outcome(st, steps), key) == Gap(st, key)
    decreases |steps|
  {
    if steps != [] {
      var t := After(st, steps[0]);
      StepKeepsFormed(st, steps[0]);
      LossIsVisible(st, steps[0]);
      RunMovesGap(t, steps[1..]);
      if key :| Gap(t, key) > Gap(st, key) {
        assert Gap(Outcome(st, steps), key) > Gap(st, key);
      } else {
        assert forall key :: Gap(t, key) == Gap(st, key);
      }
    }
  }

  // --- below 2^64 ---

  lemma StepKeepsSound(st: State, step: Step)
    requires AllSound(st) && Enabled(st, step)
    ensures AllSound(After(st, step))
    ensures NoWrap(After(st, step)) ==> NoWrap(st) && !Loses(st, step)
  {
    var t := After(st, step);
    if !step.Record? {
      var service := st.services[step.s];
      assert service in st.services;
      ServiceStaysSound(service, step);
      forall s | s in t.services ensures Sound(s) {
        assert s in st.services || s == AfterService(service, step);
      }
      if NoWrap(t) {
        assert t.services[step.s] in t.services;
        forall s | s in st.services ensures Below(s) {
          var k :| 0 <= k < |st.services| && st.services[k] == s;
          assert t.services[k] in t.services;
        }
      }
    }
  }

  lemma {:induction false} RunKeepsSound(st: State, steps: seq<Step>)
    requires AllSound(st) && IsRun(st, steps)
    ensures AllSound(Outcome(st, steps))
    ensures NoWrap(Outcome(st, steps)) ==> NoWrap(st) && NoLoss(st, steps)
    decreases |steps|
  {
    if steps != [] {
      StepKeepsSound(st, steps[0]);
      RunKeepsSound(After(st, steps[0]), steps[1..]);
    }
  }

  lemma {:induction false} NothingFlushedAtFirst(services: seq<Service>, key: Key)
    requires forall s | s in services :: Shaped(s) && s.flushed == Zeros(|s.keys|)
    ensures Flushed(services, key) == 0
  {
    if services != [] {
      var last := services[|services| - 1];
      assert last in services;
      NothingFlushedAtFirst(services[..|services| - 1], key);
      ZerosAreZero(last.keys, key);
    }
  }

  lemma {:induction false} ZerosAreZero(keys: seq<Key>, key: Key)
    ensures At(keys, Zeros(|keys|), key) == 0
  {
    if keys != [] {
      assert Zeros(|keys|)[..|keys| - 1] == Zeros(|keys| - 1);
      ZerosAreZero(keys[..|keys| - 1], key);
    }
  }

  lemma StartIsBalanced(st: State)
    requires IsStart(st)
    ensures AllSound(st) && AllFormed(st) && Balanced(st)
  {
    forall s | s in st.services ensures Sound(s) && s.flushed == Zeros(|s.keys|) {
      var k :| 0 <= k < |st.services| && st.services[k] == s;
    }
    forall key ensures Flushed(st.services, key) == 0 {
      NothingFlushedAtFirst(st.services, key);
    }
  }

  // --- the results ---

  /**
    In every run: each stored counter is its initial value plus what was recorded directly plus what
    each service holds as flushed, exactly if no flush succeeded while one of its counters stood below
    what had been flushed of it. Once lost, the balance never comes back.
  */
  lemma BalancedIff(st: State, steps: seq<Step>)
    requires IsStart(st) && IsRun(st, steps)
    ensures AllFormed(Outcome(st, steps)) && (Balanced(Outcome(st, steps)) <==> NoLoss(st, steps))
  {
    StartIsBalanced(st);
    RunMovesGap(st, steps);
    var t := Outcome(st, steps);
    assert forall key :: Gap(st, key) == 0;
    assert forall key :: Gap(t, key) == 0 <==> Get(t.table, key) == Get(t.initial, key) + Get(t.direct, key) + Flushed(t.services, key);
  }

  /** In particular in every run whose counters stay below 2^64. */
  lemma StoredIsInitialPlusFlushed(st: State, steps: seq<Step>)
    requires IsStart(st) && IsRun(st, steps) && NoWrap(Outcome(st, steps))
    ensures AllSound(Outcome(st, steps)) && AllFormed(Outcome(st, steps)) && Balanced(Outcome(st, steps))
  {
    StartIsBalanced(st);
    RunKeepsSound(st, steps);
    BalancedIff(st, steps);
  }

  lemma {:induction false} AtMonotone(keys: seq<Key>, low: seq<int>, high: seq<int>, key: Key)
    requires |keys| == |low| == |high| && forall i | 0 <= i < |keys| :: low[i] <= high[i]
    ensures At(keys, low, key) <= At(keys, high, key)
  {
    if keys != [] {
      var n := |keys| - 1;
      AtMonotone(keys[..n], low[..n], high[..n], key);
    }
  }

  // --- what is stored against what was counted, wrapped slots or not ---

  /** The service as it would be with slots that never wrap: every number it holds is this one's modulo 2^64. */
  ghost predicate Shadows(shadow: Service, service: Service) {
    && Shaped(service) && Shaped(shadow) && Distinct(shadow.keys)
    && shadow.keys == service.keys && shadow.made == shadow.values == service.made
    && (forall i | 0 <= i < |shadow.keys| ::
          && service.values[i] == shadow.values[i] % WORD && service.flushed[i] == shadow.flushed[i] % WORD
          && 0 <= shadow.flushed[i] <= shadow.values[i])
    && (if service.seen.Some? then
          && shadow.seen.Some? && |shadow.seen.value| == |service.seen.value|
          && forall i | 0 <= i < |shadow.seen.value| ::
               && service.seen.value[i] == shadow.seen.value[i] % WORD
               && shadow.flushed[i] <= shadow.seen.value[i] <= shadow.values[i]
        else shadow.seen.None?)
  }

  function AfterUnwrapped(shadow: Service, step: Step): Service
    requires CanTake(shadow, step)
  {
    if step.Inc? then
      shadow.(made := shadow.made[step.i := shadow.made[step.i] + step.amount],
            values := shadow.values[step.i := shadow.values[step.i] + step.amount])
    else AfterService(shadow, step)
  }

  lemma StepKeepsShadow(shadow: Service, service: Service, step: Step)
    requires Shadows(shadow, service) && CanTake(service, step)
    ensures CanTake(shadow, step) && Shadows(AfterUnwrapped(shadow, step), AfterService(service, step))
  {
    if step.Inc? {
      ModAdd(shadow.values[step.i], step.amount);
    }
  }

  /** Residues grow by no more than the numbers do. */
  lemma ResidueGrowth(low: int, high: int)
    requires 0 <= low <= high
    ensures high % WORD - low % WORD <= high - low
  {
    assert low / WORD <= high / WORD;
  }

  lemma {:induction false} GrowthAtMostReal(keys: seq<Key>, flushed: seq<int>, values: seq<int>, low: seq<int>, high: seq<int>, key: Key)
    requires |keys| == |flushed| == |values| == |low| == |high| && Distinct(keys)
    requires forall i | 0 <= i < |keys| :: 0 <= low[i] <= high[i] && flushed[i] == low[i] % WORD && values[i] == high[i] % WORD
    ensures Get(Growth(keys, flushed, values), key) <= At(keys, high, key) - At(keys, low, key)
  {
    if keys != [] {
      var n := |keys| - 1;
      GrowthAtMostReal(keys[..n], flushed[..n], values[..n], low[..n], high[..n], key);
      ResidueGrowth(low[n], high[n]);
      assert keys[n] !in keys[..n];
    }
  }

  ghost predicate AllShadowed(shadows: seq<Service>, services: seq<Service>) {
    |shadows| == |services| && forall i | 0 <= i < |services| :: Shadows(shadows[i], services[i])
  }

  /** The table holds no more of a key than services that never wrap would have flushed. */
  ghost predicate BelowReal(st: State, shadows: seq<Service>, key: Key)
    requires AllShadowed(shadows, st.services)
  {
    assert forall s | s in shadows :: Shaped(s);
    Get(st.table, key) <= Get(st.initial, key) + Get(st.direct, key) + Flushed(shadows, key)
  }

  lemma StepKeepsShadows(st: State, shadows: seq<Service>, step: Step)
    requires AllShadowed(shadows, st.services) && Enabled(st, step) && !step.Record?
    ensures CanTake(shadows[step.s], step)
    ensures AllShadowed(shadows[step.s := AfterUnwrapped(shadows[step.s], step)], After(st, step).services)
  {
    StepKeepsShadow(shadows[step.s], st.services[step.s], step);
  }

  /** A flush adds to the table no more than the service that never wraps adds to what it has flushed. */
  lemma StepStaysBelowReal(st: State, shadows: seq<Service>, step: Step, key: Key)
    requires AllShadowed(shadows, st.services) && BelowReal(st, shadows, key) && Enabled(st, step) && !step.Record?
    requires CanTake(shadows[step.s], step)
    requires AllShadowed(shadows[step.s := AfterUnwrapped(shadows[step.s], step)], After(st, step).services)
    ensures BelowReal(After(st, step), shadows[step.s := AfterUnwrapped(shadows[step.s], step)], key)
  {
    var shadow, service := shadows[step.s], st.services[step.s];
    var after := shadows[step.s := AfterUnwrapped(shadow, step)];
    assert (forall s | s in shadows :: Shaped(s)) && forall s | s in after :: Shaped(s);
    FlushedAfterUpdate(shadows, step.s, after[step.s], key);
    assert Shadows(shadow, service);
    if step.Succeed? {
      GrowthAtMostReal(service.keys, service.flushed, service.seen.value, shadow.flushed, shadow.seen.value, key);
    }
  }

  lemma OneFlushedAtMostMade(shadow: Service, service: Service, key: Key)
    requires Shadows(shadow, service)
    ensures At(shadow.keys, shadow.flushed, key) <= At(service.keys, service.made, key)
  {
    AtMonotone(shadow.keys, shadow.flushed, service.made, key);
  }

  lemma {:induction false} RealFlushedAtMostMade(shadows: seq<Service>, services: seq<Service>, key: Key)
    requires AllShadowed(shadows, services) && (forall s | s in shadows :: Shaped(s)) && (forall s | s in services :: Shaped(s))
    ensures Flushed(shadows, key) <= Made(services, key)
    decreases |services|
  {
    if services != [] {
      var n := |services| - 1;
      var front, front' := services[..n], shadows[..n];
      assert AllShadowed(front', front);
      assert (forall s | s in front' :: s in shadows) && forall s | s in front :: s in services;
      RealFlushedAtMostMade(front', front, key);
      OneFlushedAtMostMade(shadows[n], services[n], key);
    }
  }

  lemma {:induction false} RunStaysBelowMade(st: State, shadows: seq<Service>, steps: seq<Step>, key: Key)
    requires AllShadowed(shadows, st.services) && BelowReal(st, shadows, key) && IsRun(st, steps)
    requires AllFormed(Outcome(st, steps))
    ensures var t := Outcome(st, steps);
            Get(t.table, key) <= Get(t.initial, key) + Get(t.direct, key) + Made(t.services, key)
    decreases |steps|
  {
    if steps == [] {
      assert forall s | s in shadows :: Shaped(s);
      RealFlushedAtMostMade(shadows, st.services, key);
    } else if steps[0].Record? {
      RunStaysBelowMade(After(st, steps[0]), shadows, steps[1..], key);
    } else {
      StepKeepsShadows(st, shadows, steps[0]);
      StepStaysBelowReal(st, shadows, steps[0], key);
      var j := steps[0].s;
      RunStaysBelowMade(After(st, steps[0]), shadows[j := AfterUnwrapped(shadows[j], steps[0])], steps[1..], key);
    }
  }

  /** A stored counter never holds more than was counted, whatever passes 2^64. */
  lemma StoredNeverExceedsMade(st: State, steps: seq<Step>, key: Key)
    requires IsStart(st) && IsRun(st, steps)
    ensures var t := Outcome(st, steps);
            AllFormed(t) && Get(t.table, key) <= Get(t.initial, key) + Get(t.direct, key) + Made(t.services, key)
  {
    StartIsBalanced(st);
    RunMovesGap(st, steps);
    assert Balanced(st);
    RunStaysBelowMade(st, st.services, steps, key);
  }

  /** A stored counter never decreases, wrapped slots or not. */
  lemma {:induction false} StoredNeverDecreases(st: State, steps: seq<Step>, key: Key)
    requires IsRun(st, steps)
    ensures Get(st.table, key) <= Get(Outcome(st, steps).table, key)
    decreases |steps|
  {
    if steps != [] {
      StoredNeverDecreases(After(st, steps[0]), steps[1..], key);
    }
  }

  lemma RunOneMore(st: State, a: seq<Step>, step: Step)
    requires IsRun(st, a) && Enabled(Outcome(st, a), step)
    ensures IsRun(st, a + [step]) && Outcome(st, a + [step]) == After(Outcome(st, a), step)
    decreases |a|
  {
    if a == [] {
      assert a + [step] == [step] && IsRun(After(st, step), [step][1..]);
    } else {
      RunOneMore(After(st, a[0]), a[1..], step);
      assert (a + [step])[1..] == a[1..] + [step];
    }
  }

  /** A snapshot of one service read through to slot n with nothing counted meanwhile. */
  function QuietRead(s: nat, n: nat): seq<Step> {
    if n == 0 then [Begin(s)] else QuietRead(s, n - 1) + [Read(s)]
  }

  lemma {:induction false} QuietReadSeesAll(st: State, s: nat, n: nat)
    requires s < |st.services| && Shaped(st.services[s]) && st.services[s].seen.None? && n <= |st.services[s].keys|
    ensures IsRun(st, QuietRead(s, n))
    ensures Outcome(st, QuietRead(s, n)) == st.(services := st.services[s := st.services[s].(seen := Some(st.services[s].values[..n]))])
  {
    var service := st.services[s];
    if n == 0 {
      assert [Begin(s)] == [] + [Begin(s)];
      RunOneMore(st, [], Begin(s));
      assert service.values[..0] == [];
    } else {
      QuietReadSeesAll(st, s, n - 1);
      RunOneMore(st, QuietRead(s, n - 1), Read(s));
      assert service.values[..n - 1] + [service.values[n - 1]] == service.values[..n];
    }
  }

  /** A successful flush with nothing counted meanwhile leaves a service with everything it counted flushed. */
  lemma QuietFlushCatchesUp(st: State, s: nat)
    requires s < |st.services| && Sound(st.services[s]) && Below(st.services[s]) && st.services[s].seen.None?
    ensures var steps := QuietRead(s, |st.services[s].keys|) + [Succeed(s)];
            IsRun(st, steps) && Outcome(st, steps).services == st.services[s := st.services[s].(flushed := st.services[s].made)]
  {
    var service := st.services[s];
    var n := |service.keys|;
    QuietReadSeesAll(st, s, n);
    RunOneMore(st, QuietRead(s, n), Succeed(s));
    assert service.values[..n] == service.values;
    forall i | 0 <= i < n ensures service.values[i] == service.made[i] {
      SmallMod(service.made[i]);
    }
    assert service.values == service.made;
  }

  /** When every service has caught up, the table holds exactly what was counted. */
  lemma {:induction false} CaughtUpIsExact(services: seq<Service>, key: Key)
    requires forall s | s in services :: Shaped(s) && s.flushed == s.made
    ensures Flushed(services, key) == Made(services, key)
  {
    if services != [] {
      assert services[|services| - 1] in services;
      CaughtUpIsExact(services[..|services| - 1], key);
    }
  }

  const SLOT: Key := ("raven_bytes_received_total", "")

  /** One service with one counter, at its start and after 2^64 - 1, the most a slot holds, was counted and flushed. */
  function Fresh(): State {
    State([Service([SLOT], [0], [0], [0], None)], map[], map[], map[])
  }

  function Full(): State {
    State([Service([SLOT], [WORD - 1], [WORD - 1], [WORD - 1], None)], map[SLOT := WORD - 1], map[], map[])
  }

  function CountAndFlush(amount: int): seq<Step> {
    [Inc(0, 0, amount)] + [Begin(0)] + [Read(0)] + [Succeed(0)]
  }

  lemma {:induction false} RunOn(st: State, a: seq<Step>, b: seq<Step>)
    requires IsRun(st, a) && IsRun(Outcome(st, a), b)
    ensures IsRun(st, a + b) && Outcome(st, a + b) == Outcome(Outcome(st, a), b)
    decreases |a|
  {
    if a == [] {
      assert a + b == b;
    } else {
      RunOn(After(st, a[0]), a[1..], b);
      assert (a + b)[1..] == a[1..] + b;
    }
  }

  /** Counting and flushing once with a single counter. */
  lemma OneFlush(made: int, flushed: int, stored: map<Key, int>, amount: int)
    requires amount > 0
    ensures var value := (flushed + amount) % WORD;
            var st := State([Service([SLOT], [made], [flushed], [flushed], None)], stored, map[], map[]);
            && IsRun(st, CountAndFlush(amount))
            && Outcome(st, CountAndFlush(amount))
               == State([Service([SLOT], [made + amount], [value], [value], None)],
                        Added(stored, Growth([SLOT], [flushed], [value])), map[], map[])
  {
    var value := (flushed + amount) % WORD;
    var st := State([Service([SLOT], [made], [flushed], [flushed], None)], stored, map[], map[]);
    var a := [Inc(0, 0, amount)];
    assert a == [] + [Inc(0, 0, amount)];
    RunOneMore(st, [], Inc(0, 0, amount));
    var counted := Service([SLOT], [made + amount], [value], [flushed], None);
    assert AfterService(st.services[0], Inc(0, 0, amount)) == counted;
    assert Outcome(st, a).services == [counted];
    RunOneMore(st, a, Begin(0));
    assert Outcome(st, a + [Begin(0)]).services == [counted.(seen := Some([]))];
    RunOneMore(st, a + [Begin(0)], Read(0));
    assert [] + [counted.values[0]] == [value];
    assert Outcome(st, a + [Begin(0)] + [Read(0)]).services == [counted.(seen := Some([value]))];
    RunOneMore(st, a + [Begin(0)] + [Read(0)], Succeed(0));
    assert Outcome(st, CountAndFlush(amount)).services == [Service([SLOT], [made + amount], [value], [value], None)];
  }

  /** From a start: count up to the most a slot holds, flush, count one more, flush. The table then holds more than is recorded as flushed. */
  lemma WrapBreaksTheBalance()
    ensures var steps := CountAndFlush(WORD - 1) + CountAndFlush(1);
            && IsStart(Fresh()) && IsRun(Fresh(), steps) && AllFormed(Outcome(Fresh(), steps))
            && !Balanced(Outcome(Fresh(), steps))
  {
    assert Zeros(1) == [0];
    SmallMod(WORD - 1);
    OneFlush(0, 0, map[], WORD - 1);
    assert Growth([SLOT], [0], [WORD - 1]) == map[SLOT := WORD - 1];
    assert Outcome(Fresh(), CountAndFlush(WORD - 1)) == Full();
    OneFlush(WORD - 1, WORD - 1, map[SLOT := WORD - 1], 1);
    assert WORD % WORD == 0;
    assert Growth([SLOT], [WORD - 1], [0]) == map[];
    RunOn(Fresh(), CountAndFlush(WORD - 1), CountAndFlush(1));
    var t := Outcome(Fresh(), CountAndFlush(WORD - 1) + CountAndFlush(1));
    BalancedIff(Fresh(), CountAndFlush(WORD - 1) + CountAndFlush(1));
    OneService(t.services[0], SLOT);
    assert t.services == [t.services[0]];
    assert Get(t.table, SLOT) == WORD - 1;
  }

  lemma OneService(service: Service, key: Key)
    requires Shaped(service) && service.keys == [SLOT]
    ensures Flushed([service], key) == if key == SLOT then service.flushed[0] else 0
  {
    assert [service][..0] == [];
    if key == SLOT {
      AtIndex(service.keys, service.flushed, 0);
    } else {
      AtElsewhere(service.keys, service.flushed, key);
    }
  }
}
