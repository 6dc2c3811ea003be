/**
  The request pipeline as a step system: the single worker, client submission and cancellation,
  retention purges, shutdown, crashes and recovery, interleaved at store-call granularity.
  Every store call is one atomic statement of RequestStore or has no effect.
 */
module Pipeline {
  import opened Domain
  import opened Timestamps
  import opened RequestStore

  const MAX_ATTEMPTS: nat := 3

  /** Errors handleError treats as retryable, and all others. */
  datatype Cause = Transient | Permanent

  /** What a successful provider answer carries. */
  datatype Answer = NoResult | CellOnly | Fix

  /** Where a worker iteration stands while it still holds its request, between two store calls. */
  datatype Phase =
    | Registering
    | AskingResolver
    | SavingNode
    | AskingProvider
    | Requeuing(from: State, next: string, code: Code)
    | Failing(from: State, code: Code)
    | Completing(fix: bool)
  {
    /** The state the worker last wrote for the request it holds. */
    function RowState(): State {
      match this
      case Registering => Resolving
      case AskingResolver => Resolving
      case SavingNode => Resolving
      case AskingProvider => Locating
      case Requeuing(from, _, _) => from
      case Failing(from, _) => from
      case Completing(_) => Locating
    }
  }

  /** The worker goroutine. att is its claimed copy of attempt_count; Settled has just made a request terminal. */
  datatype Pc =
    | Down
    | Idle
    | Working(id: Id, att: nat, phase: Phase)
    | Recording(id: Id)
    | Notifying(id: Id, state: State, code: Code)
    | Leaving(id: Id)

  datatype Effect = HistoryPoint(id: Id) | Notified(id: Id, state: State, code: Code)

  /** How often a request went back to the queue, by reason. */
  datatype Tally = Tally(transient: nat, interrupted: nat, recovered: nat) {
    function Total(): nat { transient + interrupted + recovered }
  }

  /**
    active maps the request the worker registered to whether its context was cancelled.
    The last four fields are history only and steer nothing: ids ever created, the terminal state each
    request reached, requeue tallies, and requests whose result row retention removed.
   */
  datatype Sys = Sys(db: Db, pc: Pc, stopping: bool, active: map<Id, bool>, effects: seq<Effect>,
                     used: set<Id>, fate: map<Id, State>, tally: map<Id, Tally>, purged: set<Id>)

  function Initial(): Sys {
    Sys(Db(map[], map[]), Down, false, map[], [], {}, map[], map[], {})
  }

  datatype Action =
    // clients and the environment
    | Create(newId: Id, client: string, key: string, target: string, now: string)
    | CancelCommit(id: Id)
    | CancelSignal(id: Id)
    | Purge(goneRows: set<Id>, goneResults: set<Id>)
    | Shutdown
    | Crash
    | Recover(now: string)
    // the worker
    | Claim(id: Id, now: string)
    | Register
    | ResolverOk
    | ResolverErr(cause: Cause, now: string, retryAt: string)
    | SaveNode
    | ProviderOk(answer: Answer)
    | ProviderErr(cause: Cause, now: string, retryAt: string)
    | WriteRequeue
    | WriteFail
    | WriteComplete(now: string)
    | RecordPoint(ok: bool)
    | Notify
    | Leave
    | StoreError

  /** time.Second * (1 << (attempts-1)) */
  function RetryDelaySeconds(att: nat): nat {
    if att <= 1 then 1 else 2 * RetryDelaySeconds(att - 1)
  }

  predicate Interrupted(s: Sys, id: Id) {
    s.stopping || (id in s.active && s.active[id])
  }

  /** retryAt lies after now by the delay handleError computes, when it computes one. */
  ghost predicate RetryClock(att: nat, now: string, retryAt: string) {
    exists t, u :: Scheduled(att, t, u) && now == Utc(t) && retryAt == Utc(u)
  }

  predicate Scheduled(att: nat, now: Instant, retryAt: Instant) {
    && Valid(now) && Valid(retryAt)
    && (att < MAX_ATTEMPTS ==> Nanos(retryAt) == Nanos(now) + RetryDelaySeconds(att) * 1_000_000_000)
  }

  predicate InPhase(s: Sys, phase: Phase) {
    s.pc.Working? && s.pc.phase == phase
  }

  /** The step is possible in this state; all times in steps are stored texts. */
  predicate Fits(s: Sys, a: Action) {
    match a
    case Create(id, _, _, _, _) => id !in s.used
    case CancelCommit(id) => id in s.db.rows && CanTransition(s.db.rows[id].state, Cancelled)
    case CancelSignal(id) => id in s.fate && s.fate[id] == Cancelled
    case Purge(gone, _) => forall id :: id in gone ==> id in s.db.rows && s.db.rows[id].state.Terminal()
    case Shutdown => true
    case Crash => true
    case Recover(_) => s.pc.Down?
    case Claim(id, _) => s.pc.Idle? && !s.stopping && Hit(s.db, id, Queued)
    case Register => InPhase(s, Registering)
    case ResolverOk => InPhase(s, AskingResolver)
    case ResolverErr(_, _, _) => InPhase(s, AskingResolver)
    case SaveNode => InPhase(s, SavingNode)
    case ProviderOk(_) => InPhase(s, AskingProvider)
    case ProviderErr(_, _, _) => InPhase(s, AskingProvider)
    case WriteRequeue => s.pc.Working? && s.pc.phase.Requeuing?
    case WriteFail => s.pc.Working? && s.pc.phase.Failing?
    case WriteComplete(_) => s.pc.Working? && s.pc.phase.Completing?
    case RecordPoint(_) => s.pc.Recording?
    case Notify => s.pc.Notifying?
    case Leave => s.pc.Leaving?
    case StoreError =>
      s.pc.Working? && (s.pc.phase.SavingNode? || s.pc.phase.Requeuing? || s.pc.phase.Failing?
          || s.pc.phase.Completing?)
  }

  /** The clock readings and row selections behind a step: what the SQL and the delay formula prescribe. */
  ghost predicate Justified(s: Sys, a: Action)
    requires Fits(s, a)
  {
    match a
    case Create(_, client, key, _, _) => !KeyTaken(s.db, client, key)
    case Purge(gone, results) => exists rc, sc :: RemovedRows(s.db, gone, results) == PurgeRows(s.db, rc, sc)
    case Claim(id, now) => OldestDue(s.db, now, id)
    case ResolverErr(_, now, retryAt) => RetryClock(s.pc.att, now, retryAt)
    case ProviderErr(_, now, retryAt) => RetryClock(s.pc.att, now, retryAt)
    case _ => true
  }

  ghost predicate Enabled(s: Sys, a: Action) {
    Fits(s, a) && Justified(s, a)
  }

  /** What follows a resolver or provider error: the interruption test, then handleError. */
  function AfterError(interrupted: bool, att: nat, from: State, cause: Cause, now: string, retryAt: string): Phase {
    if interrupted then Requeuing(from, now, ShutdownInterrupted)
    else if cause == Permanent then Failing(from, NetworkFailure)
    else if att >= MAX_ATTEMPTS then Failing(from, TemporarilyUnavailable)
    else Requeuing(from, retryAt, TemporarilyUnavailable)
  }

  function Enter(s: Sys, phase: Phase): Sys
    requires s.pc.Working?
  {
    s.(pc := s.pc.(phase := phase))
  }

  function Bump(t: Tally, code: Code): Tally {
    if code == TemporarilyUnavailable then t.(transient := t.transient + 1) else t.(interrupted := t.interrupted + 1)
  }

  function TallyOf(s: Sys, id: Id): Tally {
    if id in s.tally then s.tally[id] else Tally(0, 0, 0)
  }

  function RecoveredTally(s: Sys): map<Id, Tally> {
    map id | id in s.used ::
      if id in s.db.rows && s.db.rows[id].state.Active()
      then TallyOf(s, id).(recovered := TallyOf(s, id).recovered + 1)
      else TallyOf(s, id)
  }

  /** Rows deleted outright take their results with them. */
  function RemovedRows(db: Db, gone: set<Id>, results: set<Id>): Db {
    Db(db.rows - gone, db.results - gone - results)
  }

  function Apply(s: Sys, a: Action): Sys
    requires Fits(s, a)
  {
    match a
    case Create(id, client, key, target, now) =>
      s.(db := s.db.(rows := s.db.rows[id := FreshRow(client, key, target, now)]), used := s.used + {id})
    case CancelCommit(id) =>
      s.(db := Transition(s.db, id, Cancelled, CancelledByClient), fate := s.fate[id := Cancelled])
    case CancelSignal(id) =>
      if id in s.active then s.(active := s.active[id := true]) else s
    case Purge(gone, results) =>
      s.(db := RemovedRows(s.db, gone, results), purged := s.purged + (results * s.db.results.Keys))
    case Shutdown => s.(stopping := true)
    case Crash => s.(pc := Down, stopping := false, active := map[])
    case Recover(now) => s.(db := RecoverRows(s.db, now), pc := Idle, tally := RecoveredTally(s))
    case Claim(id, now) =>
      s.(db := ClaimRow(s.db, id), pc := Working(id, s.db.rows[id].attempts + 1, Registering))
    case Register => Enter(s, AskingResolver).(active := s.active[s.pc.id := false])
    case ResolverOk => Enter(s, SavingNode)
    case ResolverErr(cause, now, retryAt) =>
      Enter(s, AfterError(Interrupted(s, s.pc.id), s.pc.att, Resolving, cause, now, retryAt))
    case SaveNode =>
      if Hit(s.db, s.pc.id, Resolving)
      then Enter(s, AskingProvider).(db := LocateRow(s.db, s.pc.id))
      else s.(pc := Leaving(s.pc.id))
    case ProviderOk(answer) =>
      Enter(s, if answer == NoResult then Failing(Locating, NoImmediateResult) else Completing(answer == Fix))
    case ProviderErr(cause, now, retryAt) =>
      Enter(s, AfterError(Interrupted(s, s.pc.id), s.pc.att, Locating, cause, now, retryAt))
    case WriteRequeue =>
      var Requeuing(from, next, code) := s.pc.phase;
      if Hit(s.db, s.pc.id, from)
      then s.(db := RequeueRow(s.db, s.pc.id, from, next, code), pc := Leaving(s.pc.id),
              tally := s.tally[s.pc.id := Bump(TallyOf(s, s.pc.id), code)])
      else s.(pc := Leaving(s.pc.id))
    case WriteFail =>
      var Failing(from, code) := s.pc.phase;
      if Hit(s.db, s.pc.id, from)
      then s.(db := FailRow(s.db, s.pc.id, from, code), pc := Notifying(s.pc.id, Failed, code),
              fate := s.fate[s.pc.id := Failed])
      else s.(pc := Leaving(s.pc.id))
    case WriteComplete(now) =>
      if Hit(s.db, s.pc.id, Locating)
      then s.(db := CompleteRow(s.db, s.pc.id, now), fate := s.fate[s.pc.id := Completed],
              pc := if s.pc.phase.fix then Recording(s.pc.id) else Notifying(s.pc.id, Completed, NoCode))
      else s.(pc := Leaving(s.pc.id))
    case RecordPoint(ok) =>
      var effects := if ok then s.effects + [HistoryPoint(s.pc.id)] else s.effects;
      s.(effects := effects, pc := Notifying(s.pc.id, Completed, NoCode))
    case Notify => s.(effects := s.effects + [Notified(s.pc.id, s.pc.state, s.pc.code)], pc := Leaving(s.pc.id))
    case Leave => s.(active := s.active - {s.pc.id}, pc := Idle)
    case StoreError => s.(pc := Leaving(s.pc.id))
  }

  // ---- runs ---------------------------------------------------------------------------------

  ghost predicate Legal(s: Sys, run: seq<Action>)
    decreases |run|, 0
  {
    run == [] || (Legal(s, Init(run)) && Enabled(Exec(s, Init(run)), Last(run)))
  }

  ghost function Exec(s: Sys, run: seq<Action>): Sys
    requires Legal(s, run)
    decreases |run|, 1
  {
    if run == [] then s else Apply(Exec(s, Init(run)), Last(run))
  }

  function Init(run: seq<Action>): seq<Action>
    requires run != []
  {
    run[..|run| - 1]
  }

  function Last(run: seq<Action>): Action
    requires run != []
  {
    run[|run| - 1]
  }

  // ---- the invariant ------------------------------------------------------------------------

  ghost predicate RowsOk(s: Sys) {
    && s.db.rows.Keys <= s.used && s.fate.Keys <= s.used && s.tally.Keys <= s.used
    && (forall id :: id in s.db.rows ==> (s.db.rows[id].state.Terminal() <==> id in s.fate))
    && (forall id :: id in s.db.rows && id in s.fate ==> s.fate[id] == s.db.rows[id].state)
    && (forall id :: id in s.fate ==> s.fate[id].Completed? || s.fate[id].Failed? || s.fate[id].Cancelled?)
  }

  ghost predicate ResultsOk(s: Sys) {
    && (forall id :: id in s.db.results ==> id in s.db.rows && s.db.rows[id].state == Completed)
    && (forall id :: id in s.db.rows && s.db.rows[id].state == Completed && id !in s.db.results ==> id in s.purged)
  }

  /** The worker's request is still in the state it last wrote, unless a client cancelled it meanwhile. */
  ghost predicate Holds(s: Sys, id: Id, att: nat, state: State) {
    && id in s.used && att >= 1
    && (id in s.fate ==> s.fate[id] == Cancelled)
    && (id !in s.fate ==> id in s.db.rows && s.db.rows[id].state == state && s.db.rows[id].attempts == att)
  }

  ghost predicate Settled(s: Sys, id: Id, state: State, code: Code) {
    && id in s.fate && s.fate[id] == state && (state.Completed? || state.Failed?)
    && (state == Failed && id in s.db.rows ==> s.db.rows[id].code == code)
    && (state == Completed ==> code == NoCode)
  }

  ghost predicate PhaseOk(phase: Phase, att: nat) {
    && phase.RowState().Active()
    && (phase.Failing? ==> phase.code != NoCode)
    && (phase.Requeuing? ==>
          phase.code == ShutdownInterrupted || (phase.code == TemporarilyUnavailable && att < MAX_ATTEMPTS))
  }

  ghost predicate PcOk(s: Sys) {
    && (s.pc.Working? ==> Holds(s, s.pc.id, s.pc.att, s.pc.phase.RowState()) && PhaseOk(s.pc.phase, s.pc.att))
    && (s.pc.Recording? ==>
          Settled(s, s.pc.id, Completed, NoCode) && Unnoticed(s, s.pc.id) && HistoryPoint(s.pc.id) !in s.effects)
    && (s.pc.Notifying? ==> Settled(s, s.pc.id, s.pc.state, s.pc.code) && Unnoticed(s, s.pc.id))
  }

  ghost predicate Unnoticed(s: Sys, id: Id) {
    forall i :: 0 <= i < |s.effects| && s.effects[i].Notified? ==> s.effects[i].id != id
  }

  /** Same kind of effect on the same request. */
  predicate SameEffect(e: Effect, f: Effect) {
    e.id == f.id && (e.Notified? <==> f.Notified?)
  }

  ghost predicate EffectsOk(s: Sys) {
    && (forall i :: 0 <= i < |s.effects| && s.effects[i].Notified? ==>
          Settled(s, s.effects[i].id, s.effects[i].state, s.effects[i].code))
    && (forall i :: 0 <= i < |s.effects| && s.effects[i].HistoryPoint? ==>
          Settled(s, s.effects[i].id, Completed, NoCode))
    && (forall i, j :: 0 <= i < j < |s.effects| ==> !SameEffect(s.effects[i], s.effects[j]))
  }

  /** A context is cancelled on a client's behalf only after the cancellation committed. */
  ghost predicate ActiveOk(s: Sys) {
    forall id :: id in s.active && s.active[id] ==> id in s.fate && s.fate[id] == Cancelled
  }

  ghost predicate Core(s: Sys) {
    RowsOk(s) && ResultsOk(s) && PcOk(s) && EffectsOk(s) && ActiveOk(s)
  }

  /** Every claim but the current or last one ended in a recorded return to the queue. */
  ghost predicate Accounted(row: Row, t: Tally) {
    && t.transient <= MAX_ATTEMPTS - 1
    && row.attempts == t.Total() + (if row.state == Queued then 0
                                    else if row.state == Cancelled && row.attempts == t.Total() then 0
                                    else 1)
  }

  /** The stored failure_code is empty exactly while the request was never requeued. */
  ghost predicate CodeTracksRequeues(row: Row, t: Tally) {
    row.code == NoCode <==> t.transient == 0 && t.interrupted == 0
  }

  /** The books of one row: its attempts and its code agree with its tally. */
  ghost predicate Booked(r: Row, t: Tally) {
    Accounted(r, t) && (r.state.Failed? || r.state.Cancelled? || CodeTracksRequeues(r, t))
  }

  ghost predicate BooksOk(s: Sys) {
    forall id {:trigger TallyOf(s, id)} :: id in s.db.rows ==> Booked(s.db.rows[id], TallyOf(s, id))
  }

  ghost predicate Inv(s: Sys) {
    Core(s) && BooksOk(s)
  }
}
