/** How far a tenant can overshoot its limit. The admission check reads the counter before the
  * request is recorded, so requests that are in flight together can all pass on the same count.
  */
module QuotaOvershoot {
  import opened Prelude
  import opened QuotaProtocol

  predicate IsGate(s: State, c: CallId, k: Key)
    requires c in s.calls
  {
    s.calls[c].gate && s.calls[c].key == k
  }

  /** The step lets no request of the key `k` past its gate uncounted, and records none that did not
    * pass one. Whatever it does to other keys is left open. */
  predicate Metered(s: State, e: Event, k: Key) {
    match e
    case FailOpen(c) => c in s.calls ==> !IsGate(s, c, k)
    case OtherTraffic(other) => other != k
    case _ => true
  }

  /** Requests of the key between the start of their admission check and their recording. */
  function InFlight(s: State, k: Key): set<CallId> {
    set c | c in s.calls && IsGate(s, c, k)
  }

  function AdmittedUnrecorded(s: State, k: Key): set<CallId> {
    set c | c in s.calls && IsGate(s, c, k) && s.calls[c].phase == Admitted
  }

  /** Requests that are admitted, or hold or will be handed a count below the limit. */
  function Passing(limit: Limit, s: State, k: Key): set<CallId> {
    set c | c in s.calls && IsGate(s, c, k) && WillPass(limit, s, c)
  }

  predicate WillPass(limit: Limit, s: State, c: CallId)
    requires c in s.calls
  {
    s.calls[c].phase == Admitted || (Offered(s, c).Some? && Offered(s, c).value < limit(s.calls[c].key))
  }

  lemma StepKeepsGate(w: World, limit: Limit, s: State, e: Event, c: CallId, k: Key)
    requires Enabled(w, s, e) && c in s.calls && c in Next(w, limit, s, e).calls
    ensures IsGate(s, c, k) == IsGate(Next(w, limit, s, e), c, k)
  {
    if CallsOnly(e) {
      CallsOnlyKeepsGate(w, limit, s, e, c, k);
    } else {
      OthersKeepGate(w, limit, s, e, c, k);
    }
  }

  lemma CallsOnlyKeepsGate(w: World, limit: Limit, s: State, e: Event, c: CallId, k: Key)
    requires Enabled(w, s, e) && CallsOnly(e) && c in s.calls && c in Next(w, limit, s, e).calls
    ensures IsGate(s, c, k) == IsGate(Next(w, limit, s, e), c, k)
  {
    hide RowOf, AfterSelect;
  }

  lemma OthersKeepGate(w: World, limit: Limit, s: State, e: Event, c: CallId, k: Key)
    requires Enabled(w, s, e) && !CallsOnly(e) && c in s.calls && c in Next(w, limit, s, e).calls
    ensures IsGate(s, c, k) == IsGate(Next(w, limit, s, e), c, k)
  {
    hide Upserted, Triggered, AfterCutover, RowOf, Live;
  }

  lemma AdmittedHadPassed(w: World, limit: Limit, s: State, e: Event, c: CallId, k: Key)
    requires Enabled(w, s, e) && Metered(s, e, k)
    requires var t := Next(w, limit, s, e); InPhase(t, c, Admitted) && IsGate(t, c, k)
    ensures c in s.calls && WillPass(limit, s, c)
  {
  }

  lemma StepTotal(w: World, limit: Limit, s: State, e: Event, k: Key)
    requires Enabled(w, s, e) && Metered(s, e, k)
    ensures Total(w, Next(w, limit, s, e), k) ==
            Total(w, s, k) + (if e.Record? && s.calls[e.c].key == k then 1 else 0)
  {
  }

  /** A request that starts to pass does so on the total of this very moment. */
  lemma NewPassersSeeTotal(w: World, limit: Limit, s: State, e: Event, k: Key, c: CallId)
    requires Inv(w, s) && Enabled(w, s, e) && Metered(s, e, k)
    requires c in Passing(limit, Next(w, limit, s, e), k) && c !in Passing(limit, s, k)
    ensures Total(w, Next(w, limit, s, e), k) < limit(k)
  {
    var t := Next(w, limit, s, e);
    if t.calls[c].phase == Admitted {
      AdmittedHadPassed(w, limit, s, e, c, k);
      StepKeepsGate(w, limit, s, e, c, k);
    } else {
      StepOffersFreshOrOld(w, limit, s, e, c);
      if c in s.calls {
        StepKeepsGate(w, limit, s, e, c, k);
      }
    }
  }

  /** Recording a request takes it out of the passers. */
  lemma RecordSpendsAPasser(w: World, limit: Limit, s: State, c: CallId, k: Key)
    requires Enabled(w, s, Record(c)) && s.calls[c].key == k && s.calls[c].gate
    ensures c in Passing(limit, s, k) && c !in Passing(limit, Next(w, limit, s, Record(c)), k)
  {
  }

  ghost predicate Bounded(w: World, limit: Limit, s: State, k: Key, bound: int) {
    Total(w, s, k) + |Passing(limit, s, k)| <= bound
  }

  /** Only gate calls are ever admitted. */
  ghost predicate OnlyGatesAdmitted(s: State) {
    forall c | c in s.calls && s.calls[c].phase == Admitted :: s.calls[c].gate
  }

  lemma StepAdmitsGates(w: World, limit: Limit, s: State, e: Event)
    requires Enabled(w, s, e) && OnlyGatesAdmitted(s)
    ensures OnlyGatesAdmitted(Next(w, limit, s, e))
  {
  }

  lemma StepStaysBounded(w: World, limit: Limit, s: State, e: Event, k: Key, inFlight: nat, bound: int)
    requires Inv(w, s) && OnlyGatesAdmitted(s) && Enabled(w, s, e) && Metered(s, e, k)
    requires |InFlight(Next(w, limit, s, e), k)| <= inFlight && limit(k) + inFlight - 1 <= bound
    requires Bounded(w, limit, s, k, bound)
    ensures Bounded(w, limit, Next(w, limit, s, e), k, bound)
  {
    var t := Next(w, limit, s, e);
    var before, after := Passing(limit, s, k), Passing(limit, t, k);
    StepTotal(w, limit, s, e, k);
    if after <= before {
      if e.Record? && s.calls[e.c].key == k {
        RecordSpendsAPasser(w, limit, s, e.c, k);
        SubsetCardinality(after, before - {e.c});
      } else {
        SubsetCardinality(after, before);
      }
    } else {
      var c :| c in after && c !in before;
      NewPassersSeeTotal(w, limit, s, e, k, c);
      SubsetCardinality(after, InFlight(t, k));
    }
  }

  lemma {:induction false} RunStaysBounded(w: World, limit: Limit, states: seq<State>, events: seq<Event>, k: Key, inFlight: nat, j: nat)
    requires Run(w, limit, states, events) && j < |states|
    requires forall i | 0 <= i < |events| :: Metered(states[i], events[i], k)
    requires forall s | s in states :: |InFlight(s, k)| <= inFlight
    ensures Bounded(w, limit, states[j], k, Max(Total(w, states[0], k), limit(k) + inFlight - 1))
    ensures OnlyGatesAdmitted(states[j])
  {
    if j == 0 {
      assert Passing(limit, states[0], k) == {};
    } else {
      RunStaysBounded(w, limit, states, events, k, inFlight, j - 1);
      RunKeepsInv(w, limit, states, events, j - 1);
      assert StepAt(w, limit, states, events, j - 1);
      assert Metered(states[j - 1], events[j - 1], k) && states[j] in states;
      StepAdmitsGates(w, limit, states[j - 1], events[j - 1]);
      StepStaysBounded(w, limit, states[j - 1], events[j - 1], k, inFlight,
                       Max(Total(w, states[0], k), limit(k) + inFlight - 1));
    }
  }

  /** With at most `inFlight` requests of the key in flight, neither its true total nor its stored
    * counter ever passes max(initial total, limit + inFlight - 1), however the checks, the racing
    * initializations and the recordings interleave, and whatever happens to other keys. */
  lemma OvershootIsBounded(w: World, limit: Limit, states: seq<State>, events: seq<Event>, k: Key, inFlight: nat, j: nat)
    requires Run(w, limit, states, events) && j < |states|
    requires forall i | 0 <= i < |events| :: Metered(states[i], events[i], k)
    requires forall s | s in states :: |InFlight(s, k)| <= inFlight
    ensures Total(w, states[j], k) <= Max(Total(w, states[0], k), limit(k) + inFlight - 1)
    ensures k in states[j].rows ==> states[j].rows[k].count <= Max(Total(w, states[0], k), limit(k) + inFlight - 1)
  {
    RunStaysBounded(w, limit, states, events, k, inFlight, j);
    RunKeepsInv(w, limit, states, events, j);
    assert RowExact(w, states[j], k);
  }

  // ----- the bound is reached --------------------------------------------------------------------

  const KEY := Key("tenant", 1)
  const WORLD := World(Some(0), _ => 0)

  function Uniform(limit: nat): Limit {
    (_: Key) => limit
  }

  function PhaseOf(limit: nat, c: nat, read: nat, decided: nat): CallPhase
    requires limit > 0
  {
    if c < decided then Admitted else if c < read then Got(limit - 1) else Selecting
  }

  /** `begun` requests have arrived, of which `read` have read the counter at limit - 1, `decided`
    * have been admitted and `recorded` have been recorded. */
  function Burst(limit: nat, begun: nat, read: nat, decided: nat, recorded: nat): State
    requires limit > 0 && recorded <= begun
  {
    State(
      map[KEY := Row(limit - 1 + recorded, true)],
      map[KEY := limit - 1 + recorded],
      map[], map[],
      map c | c in Range(recorded, begun) :: Call(0, KEY, true, PhaseOf(limit, c, read, decided)))
  }

  lemma BurstStartsQuiet(limit: nat)
    requires limit > 0
    ensures Quiet(WORLD, Burst(limit, 0, 0, 0, 0))
  {
  }

  lemma BurstBegins(limit: nat, j: nat)
    requires limit > 0
    ensures var s := Burst(limit, j, 0, 0, 0);
      Enabled(WORLD, s, Begin(j, 0, KEY, true)) && Next(WORLD, Uniform(limit), s, Begin(j, 0, KEY, true)) == Burst(limit, j + 1, 0, 0, 0)
  {
    var s, t := Burst(limit, j, 0, 0, 0), Burst(limit, j + 1, 0, 0, 0);
    assert s.calls[j := Call(0, KEY, true, Selecting)] == t.calls;
  }

  lemma BurstReads(limit: nat, n: nat, j: nat)
    requires limit > 0 && j < n
    ensures var s := Burst(limit, n, j, 0, 0);
      Enabled(WORLD, s, Select(j)) && Next(WORLD, Uniform(limit), s, Select(j)) == Burst(limit, n, j + 1, 0, 0)
  {
    var s, t := Burst(limit, n, j, 0, 0), Burst(limit, n, j + 1, 0, 0);
    assert AfterSelect(RowOf(s, KEY)) == Got(limit - 1);
    assert WithCall(s, j, Got(limit - 1)).calls == t.calls;
  }

  lemma BurstDecides(limit: nat, n: nat, j: nat, recorded: nat)
    requires limit > 0 && recorded <= j < n
    ensures var s := Burst(limit, n, n, j, recorded);
      Enabled(WORLD, s, Decide(j)) && Next(WORLD, Uniform(limit), s, Decide(j)) == Burst(limit, n, n, j + 1, recorded)
  {
    var s, t := Burst(limit, n, n, j, recorded), Burst(limit, n, n, j + 1, recorded);
    assert WithCall(s, j, Admitted).calls == t.calls;
  }

  lemma BurstRecords(limit: nat, n: nat, decided: nat, j: nat)
    requires limit > 0 && j < decided <= n
    ensures var s := Burst(limit, n, n, decided, j);
      Enabled(WORLD, s, Record(j)) && Next(WORLD, Uniform(limit), s, Record(j)) == Burst(limit, n, n, decided, j + 1)
  {
    var s, t := Burst(limit, n, n, decided, j), Burst(limit, n, n, decided, j + 1);
    assert s.calls - {j} == t.calls;
    assert Triggered(WORLD, KEY, RowOf(s, KEY)) == t.rows[KEY];
    assert s.rows[KEY := t.rows[KEY]] == t.rows && s.live[KEY := t.live[KEY]] == t.live;
  }

  lemma BurstInFlight(limit: nat, begun: nat, read: nat, decided: nat, recorded: nat)
    requires limit > 0 && recorded <= begun
    ensures |InFlight(Burst(limit, begun, read, decided, recorded), KEY)| == begun - recorded
  {
    assert InFlight(Burst(limit, begun, read, decided, recorded), KEY) == Range(recorded, begun);
  }

  /** `n` requests arrive, then all read the counter, then all are admitted, then all recorded. */
  function PackState(limit: nat, n: nat, j: nat): State
    requires limit > 0 && j <= 4 * n
  {
    Burst(limit, Min(j, n), Min(Max(j - n, 0), n), Min(Max(j - 2 * n, 0), n), Max(j - 3 * n, 0))
  }

  function PackEvent(n: nat, j: nat): Event
    requires j < 4 * n
  {
    if j < n then Begin(j, 0, KEY, true)
    else if j < 2 * n then Select(j - n)
    else if j < 3 * n then Decide(j - 2 * n)
    else Record(j - 3 * n)
  }

  lemma PackStep(limit: nat, n: nat, j: nat)
    requires limit > 0 && j < 4 * n
    ensures Enabled(WORLD, PackState(limit, n, j), PackEvent(n, j))
    ensures Next(WORLD, Uniform(limit), PackState(limit, n, j), PackEvent(n, j)) == PackState(limit, n, j + 1)
  {
    hide Burst, Next, Enabled;
    if j < n {
      BurstBegins(limit, j);
    } else if j < 2 * n {
      BurstReads(limit, n, j - n);
    } else if j < 3 * n {
      BurstDecides(limit, n, j - 2 * n, 0);
    } else {
      BurstRecords(limit, n, n, j - 3 * n);
    }
  }

  ghost function PackStates(limit: nat, n: nat): seq<State>
    requires limit > 0
  {
    seq(4 * n + 1, j requires 0 <= j < 4 * n + 1 => PackState(limit, n, j))
  }

  ghost function PackEvents(n: nat): seq<Event> {
    seq(4 * n, j requires 0 <= j < 4 * n => PackEvent(n, j))
  }

  lemma PackRuns(limit: nat, n: nat)
    requires limit > 0
    ensures Run(WORLD, Uniform(limit), PackStates(limit, n), PackEvents(n))
  {
    hide Burst, Next, Enabled, Quiet;
    var states, events := PackStates(limit, n), PackEvents(n);
    BurstStartsQuiet(limit);
    forall j: nat | j < |events| ensures StepAt(WORLD, Uniform(limit), states, events, j) {
      PackStep(limit, n, j);
    }
  }

  lemma PackIsNarrow(limit: nat, n: nat, s: State)
    requires limit > 0 && s in PackStates(limit, n)
    ensures |InFlight(s, KEY)| <= n
  {
    var j: nat :| j < 4 * n + 1 && PackStates(limit, n)[j] == s;
    BurstInFlight(limit, Min(j, n), Min(Max(j - n, 0), n), Min(Max(j - 2 * n, 0), n), Max(j - 3 * n, 0));
  }

  /** The bound is exact: for every limit and every concurrency some run reaches it. */
  lemma BoundIsReached(limit: nat, inFlight: nat)
    requires limit > 0 && inFlight > 0
    ensures exists states, events :: Run(WORLD, Uniform(limit), states, events) && ReachesBound(limit, inFlight, states, events)
  {
    var states, events := PackStates(limit, inFlight), PackEvents(inFlight);
    PackRuns(limit, inFlight);
    forall s | s in states ensures |InFlight(s, KEY)| <= inFlight {
      PackIsNarrow(limit, inFlight, s);
    }
    assert ReachesBound(limit, inFlight, states, events);
  }

  /** Starting below the limit, with at most `inFlight` requests in flight, to limit + inFlight - 1. */
  ghost predicate ReachesBound(limit: nat, inFlight: nat, states: seq<State>, events: seq<Event>) {
    && |states| == |events| + 1
    && (forall i | 0 <= i < |events| :: Metered(states[i], events[i], KEY))
    && (forall s | s in states :: |InFlight(s, KEY)| <= inFlight)
    && Total(WORLD, states[0], KEY) < limit
    && Total(WORLD, states[|states| - 1], KEY) == limit + inFlight - 1
  }

  // ----- exactly this bound --------------------------------------------------------------------------

  /** The run meters the key, whose limit is `limit`, and never has more than `inFlight` of its requests
    * in flight. */
  ghost predicate Gated(w: World, limits: Limit, states: seq<State>, events: seq<Event>, k: Key, limit: nat, inFlight: nat) {
    && Run(w, limits, states, events)
    && limits(k) == limit
    && (forall i | 0 <= i < |events| :: Metered(states[i], events[i], k))
    && (forall s | s in states :: |InFlight(s, k)| <= inFlight)
  }

  /** The key's total never passes max(initial total, limit + n - 1). */
  ghost predicate StaysWithin(w: World, states: seq<State>, k: Key, limit: nat, n: nat) {
    states != [] && forall j: nat | j < |states| :: Total(w, states[j], k) <= Max(Total(w, states[0], k), limit + n - 1)
  }

  ghost predicate AllStayWithin(limit: nat, inFlight: nat, n: nat) {
    forall w, limits, states, events, k | Gated(w, limits, states, events, k, limit, inFlight) :: StaysWithin(w, states, k, limit, n)
  }

  lemma GatedStaysWithin(w: World, limits: Limit, states: seq<State>, events: seq<Event>, k: Key, limit: nat, inFlight: nat, n: nat)
    requires Gated(w, limits, states, events, k, limit, inFlight) && inFlight <= n
    ensures StaysWithin(w, states, k, limit, n)
  {
    forall j: nat | j < |states| ensures Total(w, states[j], k) <= Max(Total(w, states[0], k), limit + n - 1) {
      OvershootIsBounded(w, limits, states, events, k, inFlight, j);
    }
  }

  /** The cap on requests in flight decides the overshoot: every run with at most `inFlight` of them
    * stays within max(initial total, limit + n - 1) exactly when `inFlight` is at most n. */
  lemma OvershootExactly(limit: nat, inFlight: nat, n: nat)
    requires limit > 0 && inFlight > 0 && n > 0
    ensures AllStayWithin(limit, inFlight, n) <==> inFlight <= n
  {
    hide Gated, StaysWithin;
    if inFlight <= n {
      forall w, limits, states, events, k | Gated(w, limits, states, events, k, limit, inFlight) ensures StaysWithin(w, states, k, limit, n) {
        GatedStaysWithin(w, limits, states, events, k, limit, inFlight, n);
      }
    } else {
      var states, events := PackPasses(limit, inFlight, n);
    }
  }

  lemma PackPasses(limit: nat, inFlight: nat, n: nat) returns (states: seq<State>, events: seq<Event>)
    requires limit > 0 && inFlight > n > 0
    ensures Gated(WORLD, Uniform(limit), states, events, KEY, limit, inFlight) && !StaysWithin(WORLD, states, KEY, limit, n)
  {
    BoundIsReached(limit, inFlight);
    states, events :| Run(WORLD, Uniform(limit), states, events) && ReachesBound(limit, inFlight, states, events);
    assert Total(WORLD, states[|states| - 1], KEY) > Max(Total(WORLD, states[0], KEY), limit + n - 1);
  }

  // ----- counting only admitted requests bounds nothing --------------------------------------------

  /** `n` requests arrive and read the counter; then each is admitted and recorded in turn. */
  function QueueState(limit: nat, n: nat, j: nat): State
    requires limit > 0 && j <= 4 * n
  {
    if j <= 2 * n then Burst(limit, Min(j, n), Max(j - n, 0), 0, 0)
    else Burst(limit, n, n, (j - 2 * n + 1) / 2, (j - 2 * n) / 2)
  }

  function QueueEvent(n: nat, j: nat): Event
    requires j < 4 * n
  {
    if j < n then Begin(j, 0, KEY, true)
    else if j < 2 * n then Select(j - n)
    else if (j - 2 * n) % 2 == 0 then Decide((j - 2 * n) / 2)
    else Record((j - 2 * n) / 2)
  }

  ghost predicate QueueLeads(limit: nat, n: nat, j: nat)
    requires limit > 0 && j < 4 * n
  {
    && Enabled(WORLD, QueueState(limit, n, j), QueueEvent(n, j))
    && Next(WORLD, Uniform(limit), QueueState(limit, n, j), QueueEvent(n, j)) == QueueState(limit, n, j + 1)
  }

  lemma QueueFills(limit: nat, n: nat, j: nat)
    requires limit > 0 && j < 2 * n
    ensures QueueLeads(limit, n, j)
  {
    hide Burst, Next, Enabled;
    if j < n {
      BurstBegins(limit, j);
    } else {
      BurstReads(limit, n, j - n);
    }
  }

  lemma QueueStep(limit: nat, n: nat, j: nat)
    requires limit > 0 && j < 4 * n
    ensures QueueLeads(limit, n, j)
  {
    if j < 2 * n {
      QueueFills(limit, n, j);
    } else {
      var i := Halve(j - 2 * n);
      QueueDrains(limit, n, i, j);
    }
  }

  lemma Halve(m: nat) returns (i: nat)
    ensures m == 2 * i || m == 2 * i + 1
  {
    i := m / 2;
  }

  lemma QueueDrains(limit: nat, n: nat, i: nat, j: nat)
    requires limit > 0 && i < n && (j == 2 * n + 2 * i || j == 2 * n + 2 * i + 1)
    ensures QueueLeads(limit, n, j)
  {
    if j == 2 * n + 2 * i {
      QueueDecides(limit, n, i);
    } else {
      QueueRecords(limit, n, i);
    }
  }

  lemma QueueDecides(limit: nat, n: nat, i: nat)
    requires limit > 0 && i < n
    ensures QueueLeads(limit, n, 2 * n + 2 * i)
  {
    QueueAt(limit, n, i);
    BurstDecides(limit, n, i, i);
  }

  lemma QueueRecords(limit: nat, n: nat, i: nat)
    requires limit > 0 && i < n
    ensures QueueLeads(limit, n, 2 * n + 2 * i + 1)
  {
    QueueAt(limit, n, i);
    QueueAt(limit, n, i + 1);
    BurstRecords(limit, n, i + 1, i);
    assert 2 * n + 2 * i + 1 + 1 == 2 * n + 2 * (i + 1);
  }

  lemma QueueAt(limit: nat, n: nat, i: nat)
    requires limit > 0 && i <= n
    ensures QueueState(limit, n, 2 * n + 2 * i) == Burst(limit, n, n, i, i)
    ensures i < n ==> QueueState(limit, n, 2 * n + 2 * i + 1) == Burst(limit, n, n, i + 1, i)
    ensures i < n ==> QueueEvent(n, 2 * n + 2 * i) == Decide(i) && QueueEvent(n, 2 * n + 2 * i + 1) == Record(i)
  {
    assert (2 * i + 1) / 2 == i && (2 * i) / 2 == i;
    assert (2 * i) % 2 == 0 && (2 * i + 1) % 2 == 1 && (2 * i + 2) / 2 == i + 1;
  }

  ghost function QueueStates(limit: nat, n: nat): seq<State>
    requires limit > 0
  {
    seq(4 * n + 1, j requires 0 <= j < 4 * n + 1 => QueueState(limit, n, j))
  }

  ghost function QueueEvents(n: nat): seq<Event> {
    seq(4 * n, j requires 0 <= j < 4 * n => QueueEvent(n, j))
  }

  lemma QueueRuns(limit: nat, n: nat)
    requires limit > 0
    ensures Run(WORLD, Uniform(limit), QueueStates(limit, n), QueueEvents(n))
  {
    hide Burst, Next, Enabled, Quiet;
    var states, events := QueueStates(limit, n), QueueEvents(n);
    BurstStartsQuiet(limit);
    forall j: nat | j < |events| ensures StepAt(WORLD, Uniform(limit), states, events, j) {
      QueueStep(limit, n, j);
    }
  }

  lemma BurstAdmits(limit: nat, begun: nat, read: nat, decided: nat, recorded: nat)
    requires limit > 0 && recorded <= decided <= begun
    ensures |AdmittedUnrecorded(Burst(limit, begun, read, decided, recorded), KEY)| == decided - recorded
  {
    assert AdmittedUnrecorded(Burst(limit, begun, read, decided, recorded), KEY) == Range(recorded, decided);
  }

  lemma QueueAdmitsOne(limit: nat, n: nat, s: State)
    requires limit > 0 && s in QueueStates(limit, n)
    ensures |AdmittedUnrecorded(s, KEY)| <= 1
  {
    var j: nat :| j < 4 * n + 1 && QueueStates(limit, n)[j] == s;
    if j <= 2 * n {
      BurstAdmits(limit, Min(j, n), Max(j - n, 0), 0, 0);
    } else {
      assert (j - 2 * n + 1) / 2 - (j - 2 * n) / 2 <= 1;
      BurstAdmits(limit, n, n, (j - 2 * n + 1) / 2, (j - 2 * n) / 2);
    }
  }

  /** A cap on admitted-but-unrecorded requests alone bounds nothing: with never more than one of
    * them, requests that read the counter early overshoot the limit by any amount. */
  lemma AdmittedCapBoundsNothing(limit: nat, excess: nat)
    requires limit > 0 && excess > 0
    ensures exists states, events :: Run(WORLD, Uniform(limit), states, events) && OvershootsOneByOne(limit, excess, states, events)
  {
    var states, events := QueueStates(limit, excess), QueueEvents(excess);
    QueueRuns(limit, excess);
    forall s | s in states ensures |AdmittedUnrecorded(s, KEY)| <= 1 {
      QueueAdmitsOne(limit, excess, s);
    }
    assert OvershootsOneByOne(limit, excess, states, events);
  }

  ghost predicate OvershootsOneByOne(limit: nat, excess: nat, states: seq<State>, events: seq<Event>) {
    && |states| == |events| + 1
    && (forall i | 0 <= i < |events| :: Metered(states[i], events[i], KEY))
    && (forall s | s in states :: |AdmittedUnrecorded(s, KEY)| <= 1)
    && Total(WORLD, states[0], KEY) < limit
    && Total(WORLD, states[|states| - 1], KEY) >= limit + excess - 1
  }
}
