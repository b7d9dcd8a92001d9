/** The request-quota protocol of `PlanService`: a counter row per tenant and window that live
  * traffic increments while any number of processes race to add a historical baseline, and the
  * admission check that reads it. Every step below is one database statement or one synchronous
  * stretch of JavaScript, so a run interleaves exactly where the service can be interrupted.
  */
module QuotaProtocol {
  import opened Prelude

  datatype Key = Key(tenant: string, windowStart: int)

  type Process = nat
  type CallId = nat
  type InitId = nat

  /** The monthly cap of each tenant and window. */
  type Limit = Key -> nat

  /** A row of `tenant_request_usage`. */
  datatype Row = Row(count: nat, baselineCounted: bool)

  /** What the deployment fixes: the recorded cutover, and the requests older than it. */
  datatype World = World(cutover: Option<int>, history: Key -> nat)

  function Baseline(w: World, k: Key): nat {
    if w.cutover.Some? && k.windowStart < w.cutover.value then w.history(k) else 0
  }

  // ----- the two statements that write a row ------------------------------------------------

  /** INSERT ... ON CONFLICT of `initializeRequestUsage`. */
  function Upserted(row: Option<Row>, baseline: nat): Row {
    match row
    case None => Row(baseline, true)
    case Some(r) => Row(r.count + (if r.baselineCounted then 0 else baseline), true)
  }

  /** The trigger's INSERT ... ON CONFLICT for one newly counted request. */
  function Triggered(w: World, k: Key, row: Option<Row>): Row
    requires w.cutover.Some?
  {
    match row
    case None => Row(1, k.windowStart >= w.cutover.value)
    case Some(r) => r.(count := r.count + 1)
  }

  // ----- states -----------------------------------------------------------------------------

  /** The pending promise made by one `initializeRequestUsage` call. */
  datatype InitPhase =
    | ReadingCutover
    | CountingHistory
    | Upserting(baseline: nat)
    | Returned(n: nat)
    | Rejected

  datatype Init = Init(process: Process, key: Key, phase: InitPhase)

  /** One `countRequestsSince` call. A `gate` call is the one made by `assertWithinRequestLimit`;
    * the request behind it stays in the state until it is recorded, refused or dropped. */
  datatype CallPhase =
    | Selecting
    | SawUncounted
    | Waiting(init: InitId)
    | Got(n: nat)
    | Failed
    | Admitted

  datatype Call = Call(process: Process, key: Key, gate: bool, phase: CallPhase)

  /** `slots` is each process's `requestUsageInitializations`; `live` counts trigger firings. */
  datatype State = State(
    rows: map<Key, Row>,
    live: map<Key, nat>,
    slots: map<(Process, Key), InitId>,
    inits: map<InitId, Init>,
    calls: map<CallId, Call>)

  function RowOf(s: State, k: Key): Option<Row> {
    if k in s.rows then Some(s.rows[k]) else None
  }

  function Live(s: State, k: Key): nat {
    if k in s.live then s.live[k] else 0
  }

  /** The number of requests the tenant has really made in the window. */
  function Total(w: World, s: State, k: Key): nat {
    Live(s, k) + Baseline(w, k)
  }

  function SlotOf(s: State, c: Call): Option<InitId> {
    if (c.process, c.key) in s.slots then Some(s.slots[(c.process, c.key)]) else None
  }

  // ----- steps ------------------------------------------------------------------------------

  datatype Event =
    | Begin(c: CallId, process: Process, key: Key, gate: bool)
    | Select(c: CallId)
    | SelectFails(c: CallId)
    | Resume(c: CallId, next: InitId)
    | ReadCutover(i: InitId)
    | CountHistory(i: InitId)
    | Upsert(i: InitId)
    | LoseUpsert(i: InitId)
    | Reject(i: InitId)
    | Settle(i: InitId)
    | Decide(c: CallId)
    | FailOpen(c: CallId)
    | Record(c: CallId)
    | Abandon(c: CallId)
    | OtherTraffic(key: Key)

  predicate InPhase(s: State, c: CallId, p: CallPhase) {
    c in s.calls && s.calls[c].phase == p
  }

  predicate Enabled(w: World, s: State, e: Event) {
    match e
    case Begin(c, _, _, _) => c !in s.calls
    case Select(c) => InPhase(s, c, Selecting)
    case SelectFails(c) => InPhase(s, c, Selecting)
    case Resume(c, next) => InPhase(s, c, SawUncounted) && next !in s.inits
    case ReadCutover(i) => i in s.inits && s.inits[i].phase == ReadingCutover
    case CountHistory(i) => i in s.inits && s.inits[i].phase == CountingHistory
    case Upsert(i) => i in s.inits && s.inits[i].phase.Upserting?
    case LoseUpsert(i) => i in s.inits && s.inits[i].phase.Upserting?
    case Reject(i) => i in s.inits && !s.inits[i].phase.Returned? && !s.inits[i].phase.Rejected?
    case Settle(i) => i in s.inits && (s.inits[i].phase.Returned? || s.inits[i].phase.Rejected?)
    case Decide(c) => c in s.calls && s.calls[c].phase.Got?
    case FailOpen(c) => InPhase(s, c, Failed)
    case Record(c) => InPhase(s, c, Admitted) && w.cutover.Some?
    case Abandon(c) => InPhase(s, c, Admitted)
    case OtherTraffic(_) => w.cutover.Some?
  }

  function WithCall(s: State, c: CallId, p: CallPhase): State
    requires c in s.calls
  {
    s.(calls := s.calls[c := s.calls[c].(phase := p)])
  }

  function WithInit(s: State, i: InitId, p: InitPhase): State
    requires i in s.inits
  {
    s.(inits := s.inits[i := s.inits[i].(phase := p)])
  }

  function WithoutCall(s: State, c: CallId): State {
    s.(calls := s.calls - {c})
  }

  function Counted(w: World, s: State, k: Key): State
    requires w.cutover.Some?
  {
    s.(rows := s.rows[k := Triggered(w, k, RowOf(s, k))], live := s.live[k := Live(s, k) + 1])
  }

  function AfterSelect(row: Option<Row>): CallPhase {
    if row.Some? && row.value.baselineCounted then Got(row.value.count) else SawUncounted
  }

  /** The code between the SELECT and the returned promise: share a pending one or start one. */
  function AfterResume(s: State, c: CallId, next: InitId): State
    requires c in s.calls
  {
    var call := s.calls[c];
    match SlotOf(s, call)
    case Some(i) => WithCall(s, c, Waiting(i))
    case None =>
      WithCall(s, c, Waiting(next)).(
        slots := s.slots[(call.process, call.key) := next],
        inits := s.inits[next := Init(call.process, call.key, ReadingCutover)])
  }

  function AfterCutover(w: World, k: Key): InitPhase {
    if w.cutover.None? then Rejected
    else if k.windowStart < w.cutover.value then CountingHistory
    else Upserting(0)
  }

  function AfterUpsert(s: State, i: InitId, lost: bool): State
    requires i in s.inits && s.inits[i].phase.Upserting?
  {
    var k := s.inits[i].key;
    var row := Upserted(RowOf(s, k), s.inits[i].phase.baseline);
    WithInit(s.(rows := s.rows[k := row]), i, if lost then Rejected else Returned(row.count))
  }

  function Delivered(call: Call, i: InitId, outcome: InitPhase): Call {
    if call.phase != Waiting(i) then call
    else call.(phase := if outcome.Returned? then Got(outcome.n) else Failed)
  }

  /** The promise settles: `finally` frees the slot, then every sharer resumes. */
  function AfterSettle(s: State, i: InitId): State
    requires i in s.inits
  {
    var init := s.inits[i];
    var slot := (init.process, init.key);
    s.(slots := if slot in s.slots && s.slots[slot] == i then s.slots - {slot} else s.slots,
       inits := s.inits - {i},
       calls := map c | c in s.calls :: Delivered(s.calls[c], i, init.phase))
  }

  /** `assertWithinRequestLimit` under the limit of the call's key. */
  function AfterDecide(limit: Limit, s: State, c: CallId): State
    requires c in s.calls && s.calls[c].phase.Got?
  {
    if s.calls[c].gate && s.calls[c].phase.n < limit(s.calls[c].key) then WithCall(s, c, Admitted)
    else WithoutCall(s, c)
  }

  function Next(w: World, limit: Limit, s: State, e: Event): State
    requires Enabled(w, s, e)
  {
    match e
    case Begin(c, p, k, gate) => s.(calls := s.calls[c := Call(p, k, gate, Selecting)])
    case Select(c) => WithCall(s, c, AfterSelect(RowOf(s, s.calls[c].key)))
    case SelectFails(c) => WithCall(s, c, Failed)
    case Resume(c, next) => AfterResume(s, c, next)
    case ReadCutover(i) => WithInit(s, i, AfterCutover(w, s.inits[i].key))
    case CountHistory(i) => WithInit(s, i, Upserting(w.history(s.inits[i].key)))
    case Upsert(i) => AfterUpsert(s, i, false)
    case LoseUpsert(i) => AfterUpsert(s, i, true)
    case Reject(i) => WithInit(s, i, Rejected)
    case Settle(i) => AfterSettle(s, i)
    case Decide(c) => AfterDecide(limit, s, c)
    case FailOpen(c) => if s.calls[c].gate then WithCall(s, c, Admitted) else WithoutCall(s, c)
    case Record(c) => Counted(w, WithoutCall(s, c), s.calls[c].key)
    case Abandon(c) => WithoutCall(s, c)
    case OtherTraffic(k) => Counted(w, s, k)
  }

  // ----- the invariant ------------------------------------------------------------------------

  /** count = live increments + (baseline if it was counted). */
  ghost predicate RowExact(w: World, s: State, k: Key) {
    if k in s.rows then
      s.rows[k].count == Live(s, k) + (if s.rows[k].baselineCounted then Baseline(w, k) else 0)
    else
      Live(s, k) == 0
  }

  /** A running initialization is the one its process's slot names. */
  ghost predicate InitSound(w: World, s: State, i: InitId)
    requires i in s.inits
  {
    var init := s.inits[i];
    && (init.process, init.key) in s.slots
    && s.slots[(init.process, init.key)] == i
    && match init.phase
       case CountingHistory => w.cutover.Some? && init.key.windowStart < w.cutover.value
       case Upserting(b) => w.cutover.Some? && b == Baseline(w, init.key)
       case Returned(n) => init.key in s.rows && s.rows[init.key].baselineCounted
       case _ => true
  }

  ghost predicate SlotSound(s: State, slot: (Process, Key))
    requires slot in s.slots
  {
    s.slots[slot] in s.inits
    && s.inits[s.slots[slot]].process == slot.0 && s.inits[s.slots[slot]].key == slot.1
  }

  ghost predicate CallSound(s: State, c: CallId)
    requires c in s.calls
  {
    var call := s.calls[c];
    call.phase.Waiting? ==>
      call.phase.init in s.inits
      && s.inits[call.phase.init].process == call.process
      && s.inits[call.phase.init].key == call.key
  }

  ghost predicate Inv(w: World, s: State) {
    && (forall k :: RowExact(w, s, k))
    && (forall i | i in s.inits :: InitSound(w, s, i))
    && (forall slot | slot in s.slots :: SlotSound(s, slot))
    && (forall c | c in s.calls :: CallSound(s, c))
  }

  /** Nothing in flight, and rows that already agree with the traffic so far. */
  ghost predicate Quiet(w: World, s: State) {
    s.slots == map[] && s.inits == map[] && s.calls == map[] && forall k :: RowExact(w, s, k)
  }

  /** Steps that change nothing but the calls. */
  predicate CallsOnly(e: Event) {
    e.Begin? || e.Select? || e.SelectFails? || e.Decide? || e.FailOpen? || e.Abandon?
  }

  lemma CallsOnlyFrame(w: World, limit: Limit, s: State, e: Event)
    requires Enabled(w, s, e) && CallsOnly(e)
    ensures var t := Next(w, limit, s, e);
      t.rows == s.rows && t.live == s.live && t.slots == s.slots && t.inits == s.inits
  {
    hide RowOf, AfterSelect;
    if Reads(e) {
      ReadsFrame(w, limit, s, e);
      hide Next;
    }
  }

  /** Steps before an answer is in. */
  predicate Reads(e: Event) {
    e.Begin? || e.Select? || e.SelectFails?
  }

  lemma ReadsFrame(w: World, limit: Limit, s: State, e: Event)
    requires Enabled(w, s, e) && Reads(e)
    ensures var t := Next(w, limit, s, e);
      t.rows == s.rows && t.live == s.live && t.slots == s.slots && t.inits == s.inits
  {
    hide RowOf, AfterSelect;
  }

  /** None of them makes a call wait. */
  lemma CallsOnlyWaiters(w: World, limit: Limit, s: State, e: Event, c: CallId)
    requires Enabled(w, s, e) && CallsOnly(e)
    requires var t := Next(w, limit, s, e); c in t.calls && t.calls[c].phase.Waiting?
    ensures c in s.calls && Next(w, limit, s, e).calls[c] == s.calls[c]
  {
    hide RowOf, Upserted, Triggered;
    if Reads(e) {
      ReadsWaiters(w, limit, s, e, c);
      hide Next;
    }
  }

  lemma ReadsWaiters(w: World, limit: Limit, s: State, e: Event, c: CallId)
    requires Enabled(w, s, e) && Reads(e)
    requires var t := Next(w, limit, s, e); c in t.calls && t.calls[c].phase.Waiting?
    ensures c in s.calls && Next(w, limit, s, e).calls[c] == s.calls[c]
  {
    hide RowOf;
  }

  lemma StepKeepsRows(w: World, limit: Limit, s: State, e: Event, k: Key)
    requires Enabled(w, s, e) && RowExact(w, s, k)
    requires e.Upsert? || e.LoseUpsert? ==> InitSound(w, s, e.i)
    ensures RowExact(w, Next(w, limit, s, e), k)
  {
    if CallsOnly(e) {
      CallsOnlyFrame(w, limit, s, e);
      hide Next;
    } else if e.Upsert? || e.LoseUpsert? {
      UpsertKeepsRow(w, s, e.i, e.LoseUpsert?, k);
    } else if e.Record? || e.OtherTraffic? {
      TriggerKeepsRow(w, s, if e.Record? then s.calls[e.c].key else e.key, k);
    }
  }

  lemma UpsertKeepsRow(w: World, s: State, i: InitId, lost: bool, k: Key)
    requires i in s.inits && s.inits[i].phase.Upserting? && InitSound(w, s, i) && RowExact(w, s, k)
    ensures RowExact(w, AfterUpsert(s, i, lost), k)
  {
  }

  lemma TriggerKeepsRow(w: World, s: State, key: Key, k: Key)
    requires w.cutover.Some? && RowExact(w, s, k)
    ensures RowExact(w, Counted(w, s, key), k)
  {
  }

  lemma StepKeepsInits(w: World, limit: Limit, s: State, e: Event, i: InitId)
    requires Enabled(w, s, e) && i in Next(w, limit, s, e).inits
    requires i in s.inits ==> InitSound(w, s, i)
    requires e.Settle? ==> InitSound(w, s, e.i)
    requires e.Resume? ==> InitSlotsFree(s, s.calls[e.c].process, s.calls[e.c].key)
    ensures InitSound(w, Next(w, limit, s, e), i)
  {
    if CallsOnly(e) {
      CallsOnlyFrame(w, limit, s, e);
      hide Next;
    } else if e.Upsert? || e.LoseUpsert? {
      UpsertKeepsInit(w, s, e.i, e.LoseUpsert?, i);
    }
  }

  lemma UpsertKeepsInit(w: World, s: State, u: InitId, lost: bool, i: InitId)
    requires u in s.inits && s.inits[u].phase.Upserting? && i in s.inits && InitSound(w, s, i)
    ensures InitSound(w, AfterUpsert(s, u, lost), i)
  {
  }

  /** An occupied slot blocks a second initialization; an empty one means none is running. */
  ghost predicate InitSlotsFree(s: State, p: Process, k: Key) {
    (p, k) !in s.slots ==> forall i | i in s.inits :: s.inits[i].process != p || s.inits[i].key != k
  }

  lemma StepKeepsSlots(w: World, limit: Limit, s: State, e: Event, slot: (Process, Key))
    requires Enabled(w, s, e) && slot in Next(w, limit, s, e).slots
    requires slot in s.slots ==> SlotSound(s, slot)
    requires e.Settle? ==> InitSound(w, s, e.i)
    ensures SlotSound(Next(w, limit, s, e), slot)
  {
    if CallsOnly(e) {
      CallsOnlyFrame(w, limit, s, e);
      hide Next;
    }
  }

  lemma StepKeepsCalls(w: World, limit: Limit, s: State, e: Event, c: CallId)
    requires Enabled(w, s, e) && c in Next(w, limit, s, e).calls
    requires c in s.calls ==> CallSound(s, c)
    requires e.Resume? ==> var slot := (s.calls[e.c].process, s.calls[e.c].key); slot in s.slots ==> SlotSound(s, slot)
    ensures CallSound(Next(w, limit, s, e), c)
  {
    if CallsOnly(e) {
      CallsOnlyFrame(w, limit, s, e);
      if Next(w, limit, s, e).calls[c].phase.Waiting? { CallsOnlyWaiters(w, limit, s, e, c); }
      hide Next;
    } else if e.Resume? {
      ResumeKeepsCall(s, e.c, e.next, c);
    } else if e.Settle? {
      SettleKeepsCall(s, e.i, c);
    }
  }

  lemma ResumeKeepsCall(s: State, d: CallId, next: InitId, c: CallId)
    requires InPhase(s, d, SawUncounted) && next !in s.inits && c in s.calls && CallSound(s, c)
    requires var slot := (s.calls[d].process, s.calls[d].key); slot in s.slots ==> SlotSound(s, slot)
    ensures CallSound(AfterResume(s, d, next), c)
  {
  }

  lemma SettleKeepsCall(s: State, i: InitId, c: CallId)
    requires i in s.inits && c in s.calls && CallSound(s, c)
    ensures CallSound(AfterSettle(s, i), c)
  {
  }

  /** Every step, whoever takes it, keeps the exact count and the single-flight discipline. */
  lemma StepKeepsInv(w: World, limit: Limit, s: State, e: Event)
    requires Inv(w, s) && Enabled(w, s, e)
    ensures Inv(w, Next(w, limit, s, e))
  {
    var t := Next(w, limit, s, e);
    forall k ensures RowExact(w, t, k) {
      assert RowExact(w, s, k);
      if e.Upsert? || e.LoseUpsert? { assert InitSound(w, s, e.i); }
      StepKeepsRows(w, limit, s, e, k);
    }
    forall i | i in t.inits ensures InitSound(w, t, i) {
      if i in s.inits { assert InitSound(w, s, i); }
      forall j | j in s.inits ensures InitSound(w, s, j) {}
      StepKeepsInits(w, limit, s, e, i);
    }
    forall slot | slot in t.slots ensures SlotSound(t, slot) { StepKeepsSlots(w, limit, s, e, slot); }
    forall c | c in t.calls ensures CallSound(t, c) { StepKeepsCalls(w, limit, s, e, c); }
  }

  // ----- runs ----------------------------------------------------------------------------------

  ghost predicate StepAt(w: World, limit: Limit, states: seq<State>, events: seq<Event>, j: nat)
    requires |states| == |events| + 1 && j < |events|
  {
    Enabled(w, states[j], events[j]) && states[j + 1] == Next(w, limit, states[j], events[j])
  }

  /** A run is its sequence of states; `events[j]` leads from `states[j]` to `states[j + 1]`. */
  ghost predicate Run(w: World, limit: Limit, states: seq<State>, events: seq<Event>) {
    && |states| == |events| + 1
    && Quiet(w, states[0])
    && forall j: nat | j < |events| :: StepAt(w, limit, states, events, j)
  }

  lemma RunPrefix(w: World, limit: Limit, states: seq<State>, events: seq<Event>, n: nat)
    requires Run(w, limit, states, events) && n < |states|
    ensures Run(w, limit, states[..n + 1], events[..n])
  {
    var ss, es := states[..n + 1], events[..n];
    forall j: nat | j < n ensures StepAt(w, limit, ss, es, j) {
      assert StepAt(w, limit, states, events, j);
    }
  }

  lemma {:induction false} RunKeepsInv(w: World, limit: Limit, states: seq<State>, events: seq<Event>, j: nat)
    requires Run(w, limit, states, events) && j < |states|
    ensures Inv(w, states[j])
  {
    if j > 0 {
      RunKeepsInv(w, limit, states, events, j - 1);
      assert StepAt(w, limit, states, events, j - 1);
      StepKeepsInv(w, limit, states[j - 1], events[j - 1]);
    }
  }

  /** In every reachable state the row is the live count plus the baseline, added exactly once
    * however many initializers raced, and no process runs two initializations for one key. */
  lemma {:induction false} CountIsExact(w: World, limit: Limit, states: seq<State>, events: seq<Event>, j: nat)
    requires Run(w, limit, states, events) && j < |states|
    ensures forall k :: RowExact(w, states[j], k)
    ensures forall a, b | a in states[j].inits && b in states[j].inits
                       && states[j].inits[a].process == states[j].inits[b].process
                       && states[j].inits[a].key == states[j].inits[b].key :: a == b
  {
    RunKeepsInv(w, limit, states, events, j);
    forall a, b | a in states[j].inits && b in states[j].inits
               && states[j].inits[a].process == states[j].inits[b].process
               && states[j].inits[a].key == states[j].inits[b].key
      ensures a == b
    {
      assert InitSound(w, states[j], a) && InitSound(w, states[j], b);
    }
  }

  ghost predicate Grows(w: World, s: State, t: State, k: Key) {
    && (k in s.rows && s.rows[k].baselineCounted ==> k in t.rows && t.rows[k].baselineCounted)
    && Total(w, s, k) <= Total(w, t, k)
  }

  lemma StepOnlyGrows(w: World, limit: Limit, s: State, e: Event, k: Key)
    requires Enabled(w, s, e)
    ensures Grows(w, s, Next(w, limit, s, e), k)
  {
    if CallsOnly(e) {
      CallsOnlyFrame(w, limit, s, e);
      hide Next;
    }
  }

  /** Once counted, a baseline stays counted, and the total it is counted into never falls. */
  lemma {:induction false} BaselineNeverReverts(w: World, limit: Limit, states: seq<State>, events: seq<Event>, i: nat, j: nat, k: Key)
    requires Run(w, limit, states, events) && i <= j < |states|
    ensures Grows(w, states[i], states[j], k)
    decreases j
  {
    if i < j {
      BaselineNeverReverts(w, limit, states, events, i, j - 1, k);
      assert StepAt(w, limit, states, events, j - 1);
      StepOnlyGrows(w, limit, states[j - 1], events[j - 1], k);
    }
  }

  // ----- returned counts are linearizable --------------------------------------------------------

  /** The total was `n` at moment `i`, and call `c` has been running from then up to now. */
  ghost predicate TotalAt(w: World, states: seq<State>, c: CallId, k: Key, n: nat, i: nat) {
    && i < |states|
    && Total(w, states[i], k) == n
    && forall j | i <= j < |states| :: c in states[j].calls && states[j].calls[c].key == k
  }

  ghost predicate WasTotal(w: World, states: seq<State>, c: CallId, k: Key, n: nat) {
    exists i :: TotalAt(w, states, c, k, n, i)
  }

  /** The count that call `c` holds, or would be handed by the promise it will share. */
  function Offered(s: State, c: CallId): Option<nat>
    requires c in s.calls
  {
    var call := s.calls[c];
    var init := match call.phase
      case Waiting(i) => if i in s.inits then Some(s.inits[i].phase) else None
      case SawUncounted =>
        var slot := SlotOf(s, call);
        if slot.Some? && slot.value in s.inits then Some(s.inits[slot.value].phase) else None
      case _ => None;
    if call.phase.Got? then Some(call.phase.n)
    else if init.Some? && init.value.Returned? then Some(init.value.n)
    else None
  }

  /** What a call may be offered in `t`: what `s` offered it already, or the total of this moment. */
  ghost predicate FreshOrOld(w: World, s: State, t: State, c: CallId)
    requires c in t.calls && Offered(t, c).Some?
  {
    || Offered(t, c).value == Total(w, t, t.calls[c].key)
    || (c in s.calls && s.calls[c].key == t.calls[c].key && Offered(s, c) == Offered(t, c))
  }

  lemma UpsertOffersTotal(w: World, s: State, i: InitId, c: CallId)
    requires i in s.inits && s.inits[i].phase.Upserting? && InitSound(w, s, i) && RowExact(w, s, s.inits[i].key)
    requires c in s.calls && SharedSound(w, s, c)
    requires Offered(AfterUpsert(s, i, false), c).Some?
    ensures FreshOrOld(w, s, AfterUpsert(s, i, false), c)
  {
  }

  /** The initialization that call `c` could still join is sound. */
  ghost predicate SharedInitSound(w: World, s: State, c: CallId)
    requires c in s.calls
  {
    var slot := SlotOf(s, s.calls[c]);
    slot.Some? ==> slot.value in s.inits && s.inits[slot.value].key == s.calls[c].key && InitSound(w, s, slot.value)
  }

  ghost predicate SharedSound(w: World, s: State, c: CallId)
    requires c in s.calls
  {
    RowExact(w, s, s.calls[c].key) && CallSound(s, c) && SharedInitSound(w, s, c)
  }

  /** A step that leaves call `c` and the slots alone, and returns no new count, offers nothing new. */
  lemma UntouchedOffer(s: State, t: State, c: CallId)
    requires c in s.calls && c in t.calls && t.calls[c] == s.calls[c] && t.slots == s.slots
    requires forall i | i in t.inits && t.inits[i].phase.Returned? :: i in s.inits && t.inits[i] == s.inits[i]
    requires Offered(t, c).Some?
    ensures Offered(s, c) == Offered(t, c)
  {
  }

  lemma OtherStepOffersOld(w: World, limit: Limit, s: State, e: Event, c: CallId)
    requires Enabled(w, s, e) && c in s.calls
    requires !e.Upsert? && !e.Settle? && !e.Resume? && (e.Select? ==> e.c != c)
    requires var t := Next(w, limit, s, e); c in t.calls && Offered(t, c).Some?
    ensures FreshOrOld(w, s, Next(w, limit, s, e), c)
  {
    var t := Next(w, limit, s, e);
    if e.ReadCutover? || e.CountHistory? || e.LoseUpsert? || e.Reject? {
      UntouchedOffer(s, t, c);
    } else {
      CallStepOffersOld(w, limit, s, e, c);
    }
  }

  /** Steps that touch no initialization and no slot. */
  predicate Calm(e: Event) {
    CallsOnly(e) || e.Record? || e.OtherTraffic?
  }

  lemma CalmFrame(w: World, limit: Limit, s: State, e: Event)
    requires Enabled(w, s, e) && Calm(e)
    ensures var t := Next(w, limit, s, e); t.inits == s.inits && t.slots == s.slots
  {
    if CallsOnly(e) {
      CallsOnlyFrame(w, limit, s, e);
      hide Next;
    }
  }

  /** They leave call `c` as it is, or in a phase that is offered nothing. */
  lemma CalmCall(w: World, limit: Limit, s: State, e: Event, c: CallId)
    requires Enabled(w, s, e) && Calm(e) && c in s.calls && (e.Select? ==> e.c != c)
    requires c in Next(w, limit, s, e).calls
    ensures var t := Next(w, limit, s, e); t.calls[c] == s.calls[c] || Offered(t, c).None?
  {
    hide RowOf, Upserted, Triggered, AfterSelect;
    if Reads(e) {
      ReadsCall(w, limit, s, e, c);
      hide Next;
    }
  }

  lemma ReadsCall(w: World, limit: Limit, s: State, e: Event, c: CallId)
    requires Enabled(w, s, e) && Reads(e) && c in s.calls && (e.Select? ==> e.c != c)
    requires c in Next(w, limit, s, e).calls
    ensures var t := Next(w, limit, s, e); t.calls[c] == s.calls[c] || Offered(t, c).None?
  {
    hide RowOf, AfterSelect;
  }

  lemma CallStepOffersOld(w: World, limit: Limit, s: State, e: Event, c: CallId)
    requires Enabled(w, s, e) && c in s.calls && (e.Select? ==> e.c != c)
    requires Calm(e)
    requires var t := Next(w, limit, s, e); c in t.calls && Offered(t, c).Some?
    ensures FreshOrOld(w, s, Next(w, limit, s, e), c)
  {
    CalmFrame(w, limit, s, e);
    CalmCall(w, limit, s, e, c);
    hide Next;
    UntouchedOffer(s, Next(w, limit, s, e), c);
  }

  lemma SelectOffersTotal(w: World, s: State, c: CallId)
    requires InPhase(s, c, Selecting) && RowExact(w, s, s.calls[c].key) && SharedInitSound(w, s, c)
    requires var t := WithCall(s, c, AfterSelect(RowOf(s, s.calls[c].key))); Offered(t, c).Some?
    ensures FreshOrOld(w, s, WithCall(s, c, AfterSelect(RowOf(s, s.calls[c].key))), c)
  {
  }

  lemma ResumeOffersOld(w: World, s: State, d: CallId, next: InitId, c: CallId)
    requires InPhase(s, d, SawUncounted) && next !in s.inits
    requires c in s.calls && CallSound(s, c) && SharedInitSound(w, s, c) && SharedInitSound(w, s, d)
    requires Offered(AfterResume(s, d, next), c).Some?
    ensures FreshOrOld(w, s, AfterResume(s, d, next), c)
  {
    var slot := (s.calls[c].process, s.calls[c].key);
    if slot in s.slots { assert SlotOf(s, s.calls[c]).Some?; }
  }

  lemma SettleOffersOld(w: World, s: State, i: InitId, c: CallId)
    requires i in s.inits && InitSound(w, s, i)
    requires c in s.calls && CallSound(s, c)
    requires Offered(AfterSettle(s, i), c).Some?
    ensures FreshOrOld(w, s, AfterSettle(s, i), c)
  {
  }

  lemma StepOffersLocally(w: World, limit: Limit, s: State, e: Event, c: CallId)
    requires Enabled(w, s, e) && c in s.calls && SharedSound(w, s, c)
    requires e.Upsert? || e.Settle? ==> InitSound(w, s, e.i) && RowExact(w, s, s.inits[e.i].key)
    requires e.Resume? ==> SharedSound(w, s, e.c)
    requires var t := Next(w, limit, s, e); c in t.calls && Offered(t, c).Some?
    ensures FreshOrOld(w, s, Next(w, limit, s, e), c)
  {
    if e.Upsert? {
      UpsertOffersTotal(w, s, e.i, c);
    } else if e.Settle? {
      SettleOffersOld(w, s, e.i, c);
    } else if e.Resume? {
      ResumeOffersOld(w, s, e.c, e.next, c);
    } else if e == Select(c) {
      SelectOffersTotal(w, s, c);
    } else {
      OtherStepOffersOld(w, limit, s, e, c);
    }
  }

  lemma StepOffersFreshOrOld(w: World, limit: Limit, s: State, e: Event, c: CallId)
    requires Inv(w, s) && Enabled(w, s, e)
    requires var t := Next(w, limit, s, e); c in t.calls && Offered(t, c).Some?
    ensures FreshOrOld(w, s, Next(w, limit, s, e), c)
  {
    if c in s.calls {
      InvShared(w, s, c);
      if e.Upsert? || e.Settle? {
        assert InitSound(w, s, e.i) && RowExact(w, s, s.inits[e.i].key);
      } else if e.Resume? {
        InvShared(w, s, e.c);
      }
      StepOffersLocally(w, limit, s, e, c);
    } else {
      NewCallIsOfferedNothing(w, limit, s, e, c);
    }
  }

  lemma NewCallIsOfferedNothing(w: World, limit: Limit, s: State, e: Event, c: CallId)
    requires Enabled(w, s, e) && c !in s.calls && c in Next(w, limit, s, e).calls
    ensures Offered(Next(w, limit, s, e), c).None?
  {
    OnlyBeginAdds(w, limit, s, e, c);
  }

  lemma OnlyBeginAdds(w: World, limit: Limit, s: State, e: Event, c: CallId)
    requires Enabled(w, s, e) && c !in s.calls && c in Next(w, limit, s, e).calls
    ensures e.Begin? && e.c == c
  {
  }

  lemma InvShared(w: World, s: State, c: CallId)
    requires Inv(w, s) && c in s.calls
    ensures SharedSound(w, s, c)
  {
    var slot := (s.calls[c].process, s.calls[c].key);
    assert RowExact(w, s, s.calls[c].key) && CallSound(s, c);
    if slot in s.slots { assert SlotSound(s, slot) && InitSound(w, s, s.slots[slot]); }
  }

  lemma {:induction false} OfferedWasTotal(w: World, limit: Limit, states: seq<State>, events: seq<Event>, c: CallId)
    requires Run(w, limit, states, events)
    requires var s := states[|states| - 1]; c in s.calls && Offered(s, c).Some?
    ensures var s := states[|states| - 1]; WasTotal(w, states, c, s.calls[c].key, Offered(s, c).value)
    decreases |states|
  {
    hide Offered, Next, Enabled, Inv, Total;
    var last := |events|;
    var t := states[last];
    var k, n := t.calls[c].key, Offered(t, c).value;
    if last > 0 && Total(w, t, k) != n {
      var s := states[last - 1];
      RunKeepsInv(w, limit, states, events, last - 1);
      RunPrefix(w, limit, states, events, last - 1);
      assert StepAt(w, limit, states, events, last - 1);
      StepOffersFreshOrOld(w, limit, s, events[last - 1], c);
      OfferedWasTotal(w, limit, states[..last], events[..last - 1], c);
      var i :| TotalAt(w, states[..last], c, k, n, i);
      assert TotalAt(w, states, c, k, n, i);
    } else {
      assert TotalAt(w, states, c, k, n, last);
    }
  }

  /** Every count a call returns was the true total at some moment while that call was running,
    * even when it comes from an initialization another caller started earlier. */
  lemma ReturnedCountIsLinearizable(w: World, limit: Limit, states: seq<State>, events: seq<Event>, c: CallId)
    requires Run(w, limit, states, events)
    requires var s := states[|states| - 1]; c in s.calls && s.calls[c].phase.Got?
    ensures var s := states[|states| - 1]; WasTotal(w, states, c, s.calls[c].key, s.calls[c].phase.n)
  {
    OfferedWasTotal(w, limit, states, events, c);
  }

  // ----- answers and verdicts ----------------------------------------------------------------------

  /** Every call but `c` is what it was, and none is new. */
  ghost predicate OnlyTouches(s: State, t: State, c: CallId) {
    && t.rows == s.rows && t.live == s.live && t.slots == s.slots && t.inits == s.inits
    && forall d | d != c :: (d in t.calls <==> d in s.calls) && (d in s.calls ==> t.calls[d] == s.calls[d])
  }

  /** A promise that settles answers exactly the calls that wait for it: with the count when the
    * initialization returned one, with a failure when it was rejected. */
  lemma SettleAnswersWaiters(w: World, limit: Limit, s: State, i: InitId, c: CallId)
    requires Enabled(w, s, Settle(i)) && c in s.calls
    ensures var t, outcome := Next(w, limit, s, Settle(i)), s.inits[i].phase;
      && i !in t.inits && t.calls.Keys == s.calls.Keys && t.calls[c].(phase := s.calls[c].phase) == s.calls[c]
      && (InPhase(s, c, Waiting(i)) ==>
            (forall n :: InPhase(t, c, Got(n)) <==> outcome == Returned(n)) && (InPhase(t, c, Failed) <==> outcome == Rejected))
      && (!InPhase(s, c, Waiting(i)) ==> t.calls[c] == s.calls[c])
  {
  }

  /** A waiting call whose initialization returned is handed that count, a true total of its key at some
    * moment while the call was running. */
  lemma WaitersGetTotals(w: World, limit: Limit, states: seq<State>, events: seq<Event>, i: InitId, n: nat, c: CallId)
    requires Run(w, limit, states, events) && events != [] && events[|events| - 1] == Settle(i)
    requires var s := states[|events| - 1]; i in s.inits && s.inits[i].phase == Returned(n) && InPhase(s, c, Waiting(i))
    ensures InPhase(states[|events|], c, Got(n)) && WasTotal(w, states, c, states[|events|].calls[c].key, n)
  {
    hide Inv, WasTotal, Quiet;
    var last := |events| - 1;
    assert StepAt(w, limit, states, events, last);
    SettleAnswersWaiters(w, limit, states[last], i, c);
    ReturnedCountIsLinearizable(w, limit, states, events, c);
  }

  /** What the SELECT finds: a counted row answers with the total of this moment, anything else does not. */
  lemma SelectAnswers(w: World, limit: Limit, s: State, c: CallId)
    requires Inv(w, s) && InPhase(s, c, Selecting)
    ensures var t, k := Next(w, limit, s, Select(c)), s.calls[c].key;
      && OnlyTouches(s, t, c)
      && InPhase(t, c, if k in s.rows && s.rows[k].baselineCounted then Got(Total(w, s, k)) else SawUncounted)
      && t.calls[c].key == k
  {
    assert RowExact(w, s, s.calls[c].key);
  }

  /** Every counted request, admitted by a gate or not, adds one to the total of its key and nothing to any
    * other. The row it leaves is a counted one if it was before, or is new in a window without a baseline. */
  lemma TrafficCounts(w: World, limit: Limit, s: State, e: Event, k: Key)
    requires Enabled(w, s, e) && (e.Record? || e.OtherTraffic?)
    ensures var t, key := Next(w, limit, s, e), if e.Record? then s.calls[e.c].key else e.key;
      && key in t.rows && Total(w, t, k) == Total(w, s, k) + (if k == key then 1 else 0)
      && (t.rows[key].baselineCounted <==> if key in s.rows then s.rows[key].baselineCounted else key.windowStart >= w.cutover.value)
      && t.calls == (if e.Record? then s.calls - {e.c} else s.calls) && t.slots == s.slots && t.inits == s.inits
  {
  }

  /** The gate admits a call exactly when the count it holds is below the limit of its key, and lets no
    * other call through. */
  lemma GateVerdict(w: World, limit: Limit, s: State, c: CallId, n: nat)
    requires InPhase(s, c, Got(n))
    ensures var t, call := Next(w, limit, s, Decide(c)), s.calls[c];
      && OnlyTouches(s, t, c)
      && (InPhase(t, c, Admitted) <==> call.gate && n < limit(call.key))
      && (c in t.calls <==> call.gate && n < limit(call.key))
      && (c in t.calls ==> t.calls[c] == call.(phase := Admitted))
  {
  }

  /** A failed lookup never blocks a request. */
  lemma FailedLookupAdmits(w: World, limit: Limit, s: State, c: CallId)
    requires InPhase(s, c, Failed)
    ensures var t, call := Next(w, limit, s, FailOpen(c)), s.calls[c];
      && OnlyTouches(s, t, c)
      && (c in t.calls <==> call.gate) && (call.gate ==> t.calls[c] == call.(phase := Admitted))
  {
  }

  /** A lookup whose SELECT fails has failed; an initialization may be rejected at any of its steps, and
    * one whose answer is lost on the way has written the counted row all the same. */
  lemma FailuresAreFailures(w: World, limit: Limit, s: State, c: CallId, i: InitId)
    requires Inv(w, s)
    ensures InPhase(s, c, Selecting) ==> var t := Next(w, limit, s, SelectFails(c));
      OnlyTouches(s, t, c) && c in t.calls && t.calls[c] == s.calls[c].(phase := Failed)
    ensures Enabled(w, s, Reject(i)) ==> var t := Next(w, limit, s, Reject(i));
      t.rows == s.rows && t.calls == s.calls && i in t.inits && t.inits[i].phase == Rejected
    ensures Enabled(w, s, LoseUpsert(i)) ==> var t, k := Next(w, limit, s, LoseUpsert(i)), s.inits[i].key;
      && i in t.inits && t.inits[i].phase == Rejected && t.calls == s.calls
      && k in t.rows && t.rows[k] == Row(Total(w, s, k), true) && t.live == s.live
  {
    if i in s.inits { assert InitSound(w, s, i) && RowExact(w, s, s.inits[i].key); }
  }

  /** Over runs: a gate decides by a total of its key that was true while its check was running, and
    * admits exactly when that total is below the limit. */
  lemma VerdictsGoByTotals(w: World, limit: Limit, states: seq<State>, events: seq<Event>, c: CallId)
    requires Run(w, limit, states, events) && events != [] && events[|events| - 1] == Decide(c)
    requires c in states[|events| - 1].calls && states[|events| - 1].calls[c].gate
    ensures var k := states[|events| - 1].calls[c].key;
      exists n: nat :: WasTotal(w, states[..|events|], c, k, n) && (InPhase(states[|events|], c, Admitted) <==> n < limit(k))
               && (c !in states[|events|].calls <==> n >= limit(k))
  {
    hide Inv, WasTotal, Quiet;
    var last := |events| - 1;
    var s := states[last];
    assert StepAt(w, limit, states, events, last);
    var n := s.calls[c].phase.n;
    GateVerdict(w, limit, s, c, n);
    RunPrefix(w, limit, states, events, last);
    ReturnedCountIsLinearizable(w, limit, states[..|events|], events[..last], c);
  }

  // ----- every lookup can be answered ----------------------------------------------------------------

  /** The events lead from `s` to `t`. */
  ghost predicate Leads(w: World, limit: Limit, s: State, events: seq<Event>, t: State)
    decreases |events|
  {
    if events == [] then s == t
    else Enabled(w, s, events[0]) && Leads(w, limit, Next(w, limit, s, events[0]), events[1..], t)
  }

  /** The call holds the count `n` in `t`, at most `steps` events after `s`. */
  ghost predicate Answers(w: World, limit: Limit, s: State, events: seq<Event>, t: State, c: CallId, n: nat, steps: nat) {
    |events| <= steps && Leads(w, limit, s, events, t) && InPhase(t, c, Got(n))
  }

  lemma AnswerLater(w: World, limit: Limit, s: State, e: Event, events: seq<Event>, t: State, c: CallId, n: nat, steps: nat)
    requires Enabled(w, s, e) && Answers(w, limit, Next(w, limit, s, e), events, t, c, n, steps)
    ensures Answers(w, limit, s, [e] + events, t, c, n, steps + 1)
  {
    hide Next, Enabled;
    assert ([e] + events)[1..] == events;
  }

  lemma SettledAnswer(w: World, limit: Limit, s: State, i: InitId, c: CallId)
    requires InPhase(s, c, Waiting(i)) && i in s.inits && s.inits[i].phase.Returned?
    ensures Answers(w, limit, s, [Settle(i)], Next(w, limit, s, Settle(i)), c, s.inits[i].phase.n, 1)
  {
    var t := Next(w, limit, s, Settle(i));
    SettleAnswersWaiters(w, limit, s, i, c);
    hide Next, InPhase;
    assert [Settle(i)][1..] == [];
    assert Leads(w, limit, t, [], t);
  }

  /** The number of steps an initialization that is not rejected still has to take. */
  function StepsLeft(phase: InitPhase): nat
    requires !phase.Rejected?
  {
    match phase
    case ReadingCutover => 3
    case CountingHistory => 2
    case Upserting(_) => 1
    case Returned(_) => 0
  }

  function NextOf(phase: InitPhase, i: InitId): Event {
    match phase
    case ReadingCutover => ReadCutover(i)
    case CountingHistory => CountHistory(i)
    case Upserting(_) => Upsert(i)
    case _ => Settle(i)
  }

  /** An initialization's own next step brings it nearer to returning the total. */
  lemma InitAdvances(w: World, limit: Limit, s: State, i: InitId)
    requires Inv(w, s) && w.cutover.Some? && i in s.inits && !s.inits[i].phase.Rejected? && !s.inits[i].phase.Returned?
    ensures Enabled(w, s, NextOf(s.inits[i].phase, i))
    ensures var t := Next(w, limit, s, NextOf(s.inits[i].phase, i)); var phase := s.inits[i].phase;
      && t.calls == s.calls && t.live == s.live && i in t.inits && !t.inits[i].phase.Rejected?
      && StepsLeft(t.inits[i].phase) < StepsLeft(phase)
      && (t.inits[i].phase.Returned? ==> t.inits[i].phase.n == Total(w, s, s.inits[i].key))
      && t.inits[i].key == s.inits[i].key
  {
    assert InitSound(w, s, i) && RowExact(w, s, s.inits[i].key);
  }

  /** A waiting call is answered once its initialization has run, with the promised count or else with
    * the total. */
  lemma {:induction false} WaiterCanBeAnswered(w: World, limit: Limit, s: State, i: InitId, c: CallId) returns (events: seq<Event>, t: State)
    requires Inv(w, s) && w.cutover.Some? && InPhase(s, c, Waiting(i)) && i in s.inits && !s.inits[i].phase.Rejected?
    requires s.inits[i].key == s.calls[c].key
    ensures Answers(w, limit, s, events, t, c, Offered(s, c).GetOr(Total(w, s, s.calls[c].key)), StepsLeft(s.inits[i].phase) + 1)
    decreases StepsLeft(s.inits[i].phase)
  {
    if s.inits[i].phase.Returned? {
      events, t := [Settle(i)], Next(w, limit, s, Settle(i));
      SettledAnswer(w, limit, s, i, c);
      return;
    }
    hide Inv, Leads, Next, Enabled;
    var e := NextOf(s.inits[i].phase, i);
    InitAdvances(w, limit, s, i);
    StepKeepsInv(w, limit, s, e);
    var u := Next(w, limit, s, e);
    events, t := WaiterCanBeAnswered(w, limit, u, i, c);
    AnswerLater(w, limit, s, e, events, t, c, Offered(u, c).GetOr(Total(w, u, u.calls[c].key)), StepsLeft(u.inits[i].phase) + 1);
    events := [e] + events;
  }

  /** The lookup of call `c` is under way, and the initialization it would share, if there is one, has
    * not been rejected. */
  ghost predicate UnderWay(s: State, c: CallId)
    requires c in s.calls
  {
    var phase, slot := s.calls[c].phase, SlotOf(s, s.calls[c]);
    && (phase.Selecting? || phase.SawUncounted? || phase.Waiting?)
    && (slot.Some? ==> slot.value in s.inits && !s.inits[slot.value].phase.Rejected?)
  }

  lemma ResumeWaits(w: World, limit: Limit, s: State, c: CallId, next: InitId)
    requires Inv(w, s) && InPhase(s, c, SawUncounted) && UnderWay(s, c) && next !in s.inits
    ensures var t := Next(w, limit, s, Resume(c, next)); var call := t.calls[c];
      && call == s.calls[c].(phase := call.phase) && call.phase.Waiting? && UnderWay(t, c)
      && Offered(t, c) == Offered(s, c) && Total(w, t, call.key) == Total(w, s, call.key)
  {
    InvShared(w, s, c);
  }

  lemma SelectGoesOn(w: World, limit: Limit, s: State, c: CallId)
    requires Inv(w, s) && InPhase(s, c, Selecting) && UnderWay(s, c)
    ensures var t := Next(w, limit, s, Select(c)); var call := t.calls[c];
      && call == s.calls[c].(phase := call.phase) && Offered(s, c) == None && Total(w, t, call.key) == Total(w, s, call.key)
      && (call.phase == Got(Total(w, s, call.key)) || (call.phase == SawUncounted && UnderWay(t, c) && Offered(t, c) == None))
  {
    InvShared(w, s, c);
  }

  lemma WaitingIsShared(w: World, s: State, c: CallId)
    requires Inv(w, s) && c in s.calls && s.calls[c].phase.Waiting?
    ensures var i := s.calls[c].phase.init;
      i in s.inits && SlotOf(s, s.calls[c]) == Some(i) && s.inits[i].key == s.calls[c].key
  {
    assert CallSound(s, c);
    assert InitSound(w, s, s.calls[c].phase.init);
  }

  /** What a lookup under way is answered with: the count already promised to it, or else the total. */
  function Promised(w: World, s: State, c: CallId): nat
    requires c in s.calls
  {
    Offered(s, c).GetOr(Total(w, s, s.calls[c].key))
  }

  lemma WaitingIsAnswered(w: World, limit: Limit, s: State, c: CallId) returns (events: seq<Event>, t: State)
    requires Inv(w, s) && w.cutover.Some? && c in s.calls && UnderWay(s, c) && s.calls[c].phase.Waiting?
    ensures Answers(w, limit, s, events, t, c, Promised(w, s, c), 4)
  {
    hide Inv, Leads, Offered;
    WaitingIsShared(w, s, c);
    events, t := WaiterCanBeAnswered(w, limit, s, s.calls[c].phase.init, c);
  }

  lemma UncountedIsAnswered(w: World, limit: Limit, s: State, c: CallId, next: InitId) returns (events: seq<Event>, t: State)
    requires Inv(w, s) && w.cutover.Some? && InPhase(s, c, SawUncounted) && UnderWay(s, c) && next !in s.inits
    ensures Answers(w, limit, s, events, t, c, Promised(w, s, c), 5)
  {
    var e := Resume(c, next);
    assert Enabled(w, s, e);
    var u := Next(w, limit, s, e);
    ResumeWaits(w, limit, s, c, next);
    StepKeepsInv(w, limit, s, e);
    hide Inv, Leads, Offered, Next, Enabled, Answers, UnderWay, Total;
    events, t := WaitingIsAnswered(w, limit, u, c);
    AnswerLater(w, limit, s, e, events, t, c, Promised(w, u, c), 4);
    events := [e] + events;
  }

  /** In every state that can be reached, a lookup under way can be answered within six steps, with the
    * count that is already promised to it or else with the total of this moment. */
  lemma LookupCanBeAnswered(w: World, limit: Limit, s: State, c: CallId, next: InitId) returns (events: seq<Event>, t: State)
    requires Inv(w, s) && w.cutover.Some? && c in s.calls && UnderWay(s, c) && next !in s.inits
    ensures Answers(w, limit, s, events, t, c, Promised(w, s, c), 6)
  {
    if s.calls[c].phase.Waiting? {
      events, t := WaitingIsAnswered(w, limit, s, c);
    } else if s.calls[c].phase.SawUncounted? {
      events, t := UncountedIsAnswered(w, limit, s, c, next);
    } else {
      events, t := SelectingIsAnswered(w, limit, s, c, next);
    }
  }

  lemma SelectingIsAnswered(w: World, limit: Limit, s: State, c: CallId, next: InitId) returns (events: seq<Event>, t: State)
    requires Inv(w, s) && w.cutover.Some? && InPhase(s, c, Selecting) && UnderWay(s, c) && next !in s.inits
    ensures Answers(w, limit, s, events, t, c, Promised(w, s, c), 6)
  {
    var e := Select(c);
    assert Enabled(w, s, e);
    var u := Next(w, limit, s, e);
    SelectGoesOn(w, limit, s, c);
    SelectAnswers(w, limit, s, c);
    StepKeepsInv(w, limit, s, e);
    hide Inv, Offered, Next, Enabled, UnderWay, Total;
    if u.calls[c].phase.Got? {
      events, t := [], u;
    } else {
      hide Answers;
      events, t := UncountedIsAnswered(w, limit, u, c, next);
    }
    AnswerLater(w, limit, s, e, events, t, c, Promised(w, u, c), 5);
    events := [e] + events;
  }
}
