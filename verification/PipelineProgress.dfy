/** How long the worker can stay busy: the claim budget of the queue and the work left in an iteration. */
module PipelineProgress {
  import opened Domain
  import opened Timestamps
  import opened RequestStore
  import opened Pipeline
  import opened PipelineSafety

  // ---- claims still to come -----------------------------------------------------------------

  /** Claims a row can still consume when nothing interrupts the worker. */
  function ClaimsLeft(r: Row): nat {
    match r.state
    case Queued => if r.attempts < MAX_ATTEMPTS - 1 then MAX_ATTEMPTS - r.attempts else 1
    case Resolving => if r.attempts < MAX_ATTEMPTS then MAX_ATTEMPTS - r.attempts else 0
    case Locating => if r.attempts < MAX_ATTEMPTS then MAX_ATTEMPTS - r.attempts else 0
    case _ => 0
  }

  ghost function Sum(rows: map<Id, Row>): nat {
    if rows == map[] then 0
    else
      var id :| id in rows;
      ClaimsLeft(rows[id]) + Sum(rows - {id})
  }

  /** A queued row can still be claimed three times less the attempts made, and once in any case. */
  lemma ClaimsOfQueued(r: Row)
    ensures r.state == Queued ==> ClaimsLeft(r) == (if 3 - r.attempts > 1 then 3 - r.attempts else 1)
    ensures ClaimsLeft(r) <= 3
  {
  }

  /** Theorem: the budget of a queue is at most three claims a row, and exactly that for rows never tried. */
  lemma {:induction false} SumOfRows(rows: map<Id, Row>)
    ensures Sum(rows) <= 3 * |rows|
    ensures (forall id :: id in rows ==> rows[id].state == Queued && rows[id].attempts == 0) ==> Sum(rows) == 3 * |rows|
    decreases |rows|
  {
    if rows != map[] {
      var id :| id in rows;
      SumExtracts(rows, id);
      ClaimsOfQueued(rows[id]);
      SumOfRows(rows - {id});
      assert |rows - {id}| == |rows| - 1 by { assert rows == (rows - {id})[id := rows[id]]; }
    }
  }

  lemma {:induction false} SumExtracts(rows: map<Id, Row>, id: Id)
    requires id in rows
    ensures Sum(rows) == ClaimsLeft(rows[id]) + Sum(rows - {id})
    decreases |rows|
  {
    var first :| first in rows && Sum(rows) == ClaimsLeft(rows[first]) + Sum(rows - {first});
    if first != id {
      SumExtracts(rows - {first}, id);
      SumExtracts(rows - {id}, first);
      assert rows - {first} - {id} == rows - {id} - {first};
    }
  }

  /** No row gains claims and none appears: the budget does not grow. */
  lemma {:induction false} SumShrinks(rows: map<Id, Row>, rows': map<Id, Row>)
    requires rows'.Keys <= rows.Keys
    requires forall id :: id in rows' ==> ClaimsLeft(rows'[id]) <= ClaimsLeft(rows[id])
    ensures Sum(rows') <= Sum(rows)
    decreases |rows'|
  {
    if rows' != map[] {
      var id :| id in rows';
      SumExtracts(rows', id);
      SumExtracts(rows, id);
      SumShrinks(rows - {id}, rows' - {id});
    }
  }

  lemma SumDrops(rows: map<Id, Row>, rows': map<Id, Row>, id: Id)
    requires rows'.Keys <= rows.Keys && id in rows'
    requires forall j :: j in rows' ==> ClaimsLeft(rows'[j]) <= ClaimsLeft(rows[j])
    requires ClaimsLeft(rows'[id]) < ClaimsLeft(rows[id])
    ensures Sum(rows') < Sum(rows)
  {
    SumExtracts(rows', id);
    SumExtracts(rows, id);
    SumShrinks(rows - {id}, rows' - {id});
  }

  // ---- quiet runs ---------------------------------------------------------------------------

  /** No new work, no restart, no shutdown, and the store fails only by conflict. */
  predicate Quiet(a: Action) {
    !a.Create? && !a.Shutdown? && !a.Crash? && !a.Recover? && !a.StoreError?
  }

  /** Only the worker holds active rows, and it never mistakes a live request for an interrupted one. */
  ghost predicate Tidy(s: Sys) {
    && !s.stopping
    && (forall id :: id in s.db.rows && s.db.rows[id].state.Active() ==> s.pc.Working? && s.pc.id == id)
    && (s.pc.Working? && s.pc.phase.Requeuing? && s.pc.phase.code == ShutdownInterrupted ==> s.pc.id in s.fate)
  }

  /** Recovery leaves the queue tidy: a restarted worker is the only one. */
  lemma RecoveryTidies(s: Sys, a: Action)
    requires Fits(s, a) && a.Recover? && !s.stopping
    ensures Tidy(Apply(s, a))
  {
  }

  lemma MoveCost(m: Move, r: Row, t: Tally, r': Row, t': Tally)
    requires Moved(m, r, t, r', t') && !m.Rescue? && m != GiveBack(ShutdownInterrupted)
    ensures ClaimsLeft(r') <= ClaimsLeft(r)
    ensures m.Take? ==> ClaimsLeft(r') < ClaimsLeft(r)
  {
  }

  /** In a quiet run no row is put back for an interruption. */
  lemma QuietMove(s: Sys, a: Action, id: Id) returns (m: Move)
    requires RowsOk(s) && PcOk(s) && Tidy(s) && Fits(s, a) && Quiet(a) && id in s.db.rows && id in Apply(s, a).db.rows
    ensures StepMoves(s, a, id, m) && !m.Rescue? && m != GiveBack(ShutdownInterrupted)
    ensures m.Take? <==> a.Claim? && a.id == id
  {
    if a.SaveNode? {
      m := LocateMove(s, a, id);
    } else if a.WriteComplete? {
      m := CompleteMove(s, a, id);
    } else if a.WriteRequeue? {
      m := QuietRequeue(s, a, id);
    } else if a.WriteFail? {
      m := FailMove(s, a, id);
    } else if a.Claim? || a.CancelCommit? {
      m := TakeOrCancelMove(s, a, id);
    } else {
      NoMove(s, a, id);
      m := Stay;
    }
  }

  lemma QuietRequeue(s: Sys, a: Action, id: Id) returns (m: Move)
    requires RowsOk(s) && PcOk(s) && Tidy(s) && Fits(s, a) && a.WriteRequeue? && id in s.db.rows
    ensures id in Apply(s, a).db.rows && StepMoves(s, a, id, m)
    ensures m.Stay? || (m.GiveBack? && m != GiveBack(ShutdownInterrupted))
  {
    m := RequeueMove(s, a, id);
    if m.GiveBack? {
      LiveWhenHit(s, id, s.pc.phase.from);
    }
  }

  lemma LiveWhenHit(s: Sys, id: Id, from: State)
    requires RowsOk(s) && PcOk(s) && s.pc.Working? && s.pc.id == id && from == s.pc.phase.RowState()
             && Hit(s.db, id, from)
    ensures id !in s.fate
  {
  }

  lemma QuietCost(s: Sys, a: Action, id: Id)
    requires Core(s) && Tidy(s) && Fits(s, a) && Quiet(a) && id in s.db.rows && id in Apply(s, a).db.rows
    ensures ClaimsLeft(Apply(s, a).db.rows[id]) <= ClaimsLeft(s.db.rows[id])
    ensures a.Claim? && a.id == id ==> ClaimsLeft(Apply(s, a).db.rows[id]) < ClaimsLeft(s.db.rows[id])
  {
    var m := QuietMove(s, a, id);
    MoveCost(m, s.db.rows[id], TallyOf(s, id), Apply(s, a).db.rows[id], TallyOf(Apply(s, a), id));
  }

  lemma QuietAddsNoRow(s: Sys, a: Action)
    requires RowsOk(s) && Fits(s, a) && Quiet(a)
    ensures Apply(s, a).db.rows.Keys <= s.db.rows.Keys
  {
    forall id | id in Apply(s, a).db.rows ensures id in s.db.rows {
      if id !in s.db.rows { StepAddsRow(s, a, id); }
    }
  }

  /** One quiet step never grows the claim budget, and a claim spends some of it. */
  lemma QuietStepBudget(s: Sys, a: Action)
    requires Core(s) && Tidy(s) && Fits(s, a) && Quiet(a)
    ensures Sum(Apply(s, a).db.rows) <= Sum(s.db.rows)
    ensures a.Claim? ==> Sum(Apply(s, a).db.rows) < Sum(s.db.rows)
  {
    QuietAddsNoRow(s, a);
    var rows, rows' := s.db.rows, Apply(s, a).db.rows;
    forall id | id in rows' ensures ClaimsLeft(rows'[id]) <= ClaimsLeft(rows[id]) {
      QuietCost(s, a, id);
    }
    if a.Claim? {
      QuietCost(s, a, a.id);
      SumDrops(rows, rows', a.id);
    } else {
      SumShrinks(rows, rows');
    }
  }

  /** A row that is active after a quiet step is the worker's. */
  lemma ActiveRowIsHeld(s: Sys, a: Action, id: Id)
    requires RowsOk(s) && PcOk(s) && Tidy(s) && Fits(s, a) && Quiet(a)
    requires id in Apply(s, a).db.rows && Apply(s, a).db.rows[id].state.Active()
    ensures Apply(s, a).pc.Working? && Apply(s, a).pc.id == id
  {
    if id !in s.db.rows {
      StepAddsRow(s, a, id);
    } else if s.db.rows[id].state.Active() {
      if a.SaveNode? || a.WriteRequeue? || a.WriteFail? || a.WriteComplete? {
        WritesLetGo(s, a, id);
      } else {
        OthersHoldOn(s, a);
      }
    } else {
      var m := QuietMove(s, a, id);
      assert m.Take?;
    }
  }

  /** A write that leaves the worker's own row active is the serving-node write. */
  lemma WritesLetGo(s: Sys, a: Action, id: Id)
    requires RowsOk(s) && PcOk(s) && Fits(s, a) && (a.SaveNode? || a.WriteRequeue? || a.WriteFail? || a.WriteComplete?)
    requires s.pc.id == id && id in s.db.rows && s.db.rows[id].state.Active()
    requires id in Apply(s, a).db.rows && Apply(s, a).db.rows[id].state.Active()
    ensures Apply(s, a).pc.Working? && Apply(s, a).pc.id == id
  {
    if !a.SaveNode? {
      SettlingEnds(s, a, id);
    }
  }

  lemma SettlingEnds(s: Sys, a: Action, id: Id)
    requires RowsOk(s) && PcOk(s) && Fits(s, a) && (a.WriteRequeue? || a.WriteFail? || a.WriteComplete?)
    requires s.pc.id == id && id in s.db.rows && s.db.rows[id].state.Active()
    ensures id in Apply(s, a).db.rows && !Apply(s, a).db.rows[id].state.Active()
  {
    assert Hit(s.db, id, s.pc.phase.RowState());
    WriteHits(s, a, id);
  }

  lemma WriteHits(s: Sys, a: Action, id: Id)
    requires Fits(s, a) && (a.WriteRequeue? || a.WriteFail? || a.WriteComplete?)
    requires s.pc.id == id && Hit(s.db, id, s.pc.phase.RowState())
    ensures id in Apply(s, a).db.rows
    ensures Apply(s, a).db.rows[id].state ==
            if a.WriteRequeue? then Queued else if a.WriteFail? then Failed else Completed
  {
  }

  lemma OthersHoldOn(s: Sys, a: Action)
    requires Fits(s, a) && Quiet(a) && s.pc.Working?
    requires !a.SaveNode? && !a.WriteRequeue? && !a.WriteFail? && !a.WriteComplete?
    ensures Apply(s, a).pc.Working? && Apply(s, a).pc.id == s.pc.id
  {
  }

  lemma QuietInterruptions(s: Sys, a: Action)
    requires RowsOk(s) && PcOk(s) && ActiveOk(s) && Tidy(s) && Fits(s, a) && Quiet(a)
    ensures var s' := Apply(s, a);
            s'.pc.Working? && s'.pc.phase.Requeuing? && s'.pc.phase.code == ShutdownInterrupted ==> s'.pc.id in s'.fate
  {
    if s.pc.Working? && s.pc.id in s.fate { FateStays(s, a, s.pc.id); }
  }

  lemma QuietKeepsTidy(s: Sys, a: Action)
    requires Core(s) && Tidy(s) && Fits(s, a) && Quiet(a)
    ensures Tidy(Apply(s, a))
  {
    var s' := Apply(s, a);
    forall id | id in s'.db.rows && s'.db.rows[id].state.Active() ensures s'.pc.Working? && s'.pc.id == id {
      ActiveRowIsHeld(s, a, id);
    }
    QuietInterruptions(s, a);
  }

  // ---- work left in an iteration ------------------------------------------------------------

  function PhaseRank(p: Phase): nat {
    match p
    case Registering => 8
    case AskingResolver => 7
    case SavingNode => 6
    case AskingProvider => 5
    case _ => 4
  }

  function Rank(pc: Pc): nat {
    match pc
    case Working(_, _, phase) => PhaseRank(phase)
    case Recording(_) => 3
    case Notifying(_, _, _) => 2
    case Leaving(_) => 1
    case _ => 0
  }

  /** Upper bound on the worker steps still to come in a quiet run. */
  ghost function Work(s: Sys): nat {
    9 * Sum(s.db.rows) + Rank(s.pc)
  }

  /** Steps of the worker goroutine, as against clients and retention. */
  predicate WorkerStep(a: Action) {
    Quiet(a) && !a.CancelCommit? && !a.CancelSignal? && !a.Purge?
  }

  lemma QuietStepRank(s: Sys, a: Action)
    requires Fits(s, a) && Quiet(a)
    ensures a.Claim? ==> Rank(Apply(s, a).pc) == 8 && Rank(s.pc) == 0
    ensures WorkerStep(a) && !a.Claim? ==> Rank(Apply(s, a).pc) < Rank(s.pc)
    ensures !WorkerStep(a) ==> Apply(s, a).pc == s.pc
  {
  }

  function Claims(run: seq<Action>): nat {
    if run == [] then 0 else Claims(Init(run)) + (if Last(run).Claim? then 1 else 0)
  }

  function WorkerSteps(run: seq<Action>): nat {
    if run == [] then 0 else WorkerSteps(Init(run)) + (if WorkerStep(Last(run)) then 1 else 0)
  }

  predicate QuietRun(run: seq<Action>) {
    forall i :: 0 <= i < |run| ==> Quiet(run[i])
  }

  /**
    Theorem: in a run without new work, restarts, interruptions or store failures other than conflicts,
    the worker makes at most the sum over queued rows of max(1, 3 - attempts) claims, and at most nine
    times as many steps in all (plus those of the iteration in progress), whatever clients cancel meanwhile.
   */
  lemma {:induction false} WorkIsBounded(s: Sys, run: seq<Action>)
    requires Inv(s) && Tidy(s) && Legal(s, run) && QuietRun(run)
    ensures Claims(run) + Sum(Exec(s, run).db.rows) <= Sum(s.db.rows)
    ensures WorkerSteps(run) + Work(Exec(s, run)) <= Work(s)
    ensures Inv(Exec(s, run)) && Tidy(Exec(s, run))
    decreases |run|
  {
    if run != [] {
      WorkIsBounded(s, Init(run));
      var e, a := Exec(s, Init(run)), Last(run);
      QuietStepBudget(e, a);
      QuietStepRank(e, a);
      QuietKeepsTidy(e, a);
      StepKeepsInv(e, a);
    }
  }

  /** A busy worker always has a next step, so a quiet run can only stop with the worker idle. */
  lemma BusyWorkerCanStep(s: Sys, now: string) returns (a: Action)
    requires !s.pc.Down? && !s.pc.Idle?
    ensures WorkerStep(a) && !a.Claim? && Enabled(s, a)
  {
    a := match s.pc
      case Recording(_) => RecordPoint(true)
      case Notifying(_, _, _) => Notify
      case Leaving(_) => Leave
      case Working(_, _, phase) =>
        (match phase
         case Registering => Register
         case AskingResolver => ResolverOk
         case SavingNode => SaveNode
         case AskingProvider => ProviderOk(NoResult)
         case Requeuing(_, _, _) => WriteRequeue
         case Failing(_, _) => WriteFail
         case Completing(_) => WriteComplete(now))
      case _ => Leave;
  }

  /** An idle worker with due work can claim the oldest of it. */
  lemma IdleWorkerCanClaim(s: Sys, now: string, id: Id) returns (a: Action)
    requires s.pc.Idle? && !s.stopping && id in s.db.rows && Due(s.db.rows[id], now)
    ensures a.Claim? && a.now == now && Enabled(s, a)
  {
    var due := set j | j in s.db.rows && Due(s.db.rows[j], now);
    assert id in due;
    var first := OldestDueExists(s.db, now, due);
    assert forall j :: j in s.db.rows && Due(s.db.rows[j], now) ==> j in due;
    a := Claim(first, now);
  }

  /** The worker has no step left while the clock reads now. */
  ghost predicate AtRest(e: Sys, now: string) {
    forall a :: WorkerStep(a) && (a.Claim? ==> a.now == now) ==> !Enabled(e, a)
  }

  ghost predicate AllTerminal(e: Sys) {
    forall id :: id in e.db.rows ==> e.db.rows[id].state.Terminal()
  }

  /** Never scheduled, or scheduled for a second before the clock's. */
  ghost predicate ScheduledBefore(next: Option<string>, clock: Instant) {
    next == None || exists t :: Valid(t) && next == Some(Utc(t)) && Seconds(t) < Seconds(clock)
  }

  lemma ScheduledBeforeIsDue(row: Row, clock: Instant)
    requires Valid(clock) && row.state == Queued && ScheduledBefore(row.next, clock)
    ensures Due(row, Utc(clock))
  {
    if row.next != None {
      var t :| Valid(t) && row.next == Some(Utc(t)) && Seconds(t) < Seconds(clock);
      DueWhenReached(row, t, clock);
    }
  }

  /**
    Theorem: a quiet run that has come to rest at a clock reading in a later second than every scheduled
    attempt has made every request terminal, within the claim budget.
   */
  lemma QueueDrains(s: Sys, run: seq<Action>, clock: Instant)
    requires Inv(s) && Tidy(s) && !s.pc.Down? && Legal(s, run) && QuietRun(run) && Valid(clock)
    requires var e := Exec(s, run);
             forall id :: id in e.db.rows && e.db.rows[id].state == Queued ==>
               ScheduledBefore(e.db.rows[id].next, clock)
    requires AtRest(Exec(s, run), Utc(clock))
    ensures Claims(run) <= Sum(s.db.rows) <= 3 * |s.db.rows| && AllTerminal(Exec(s, run))
  {
    WorkIsBounded(s, run);
    SumOfRows(s.db.rows);
    StaysUp(s, run);
    var e := Exec(s, run);
    forall id | id in e.db.rows && e.db.rows[id].state == Queued ensures Due(e.db.rows[id], Utc(clock)) {
      ScheduledBeforeIsDue(e.db.rows[id], clock);
    }
    RestMeansDone(e, Utc(clock));
  }

  lemma RestMeansDone(e: Sys, now: string)
    requires Tidy(e) && !e.pc.Down? && AtRest(e, now)
    requires forall id :: id in e.db.rows && e.db.rows[id].state == Queued ==> Due(e.db.rows[id], now)
    ensures AllTerminal(e)
  {
    if !e.pc.Idle? {
      var a := BusyWorkerCanStep(e, now);
      assert false;
    }
    forall id | id in e.db.rows ensures e.db.rows[id].state.Terminal() {
      if e.db.rows[id].state == Queued {
        var a := IdleWorkerCanClaim(e, now, id);
        assert false;
      }
    }
  }

  /** Theorem: from every such state the worker, left alone, can make every request terminal within the claim budget. */
  lemma QueueCanDrain(s: Sys) returns (run: seq<Action>)
    requires Inv(s) && Tidy(s) && !s.pc.Down?
    ensures Legal(s, run) && QuietRun(run) && Claims(run) <= Sum(s.db.rows) && AllTerminal(Exec(s, run))
  {
    run := DrainFrom(s, []);
    WorkIsBounded(s, run);
  }

  lemma {:induction false} DrainFrom(s: Sys, run: seq<Action>) returns (longer: seq<Action>)
    requires Inv(s) && Tidy(s) && !s.pc.Down? && Legal(s, run) && QuietRun(run)
    ensures Legal(s, longer) && QuietRun(longer) && AllTerminal(Exec(s, longer))
    decreases Work(Exec(s, run))
  {
    var e := Exec(s, run);
    WorkIsBounded(s, run);
    StaysUp(s, run);
    var found, a := NextStep(e);
    if found {
      longer := run + [a];
      assert Init(longer) == run && Last(longer) == a;
      StepUsesWork(e, a);
      longer := DrainFrom(s, longer);
    } else {
      longer := run;
    }
  }

  /** While some request is not terminal the worker has a step, at some clock reading. */
  lemma NextStep(e: Sys) returns (found: bool, a: Action)
    requires Tidy(e) && !e.pc.Down?
    ensures if found then WorkerStep(a) && Enabled(e, a) else AllTerminal(e)
  {
    found, a := true, Leave;
    if !e.pc.Idle? {
      a := BusyWorkerCanStep(e, "");
    } else if exists id :: id in e.db.rows && e.db.rows[id].state == Queued {
      var id :| id in e.db.rows && e.db.rows[id].state == Queued;
      var next := e.db.rows[id].next;
      a := IdleWorkerCanClaim(e, if next.Some? then next.value else "", id);
    } else {
      found := false;
    }
  }

  lemma StepUsesWork(e: Sys, a: Action)
    requires Inv(e) && Tidy(e) && Enabled(e, a) && WorkerStep(a)
    ensures Work(Apply(e, a)) < Work(e)
  {
    QuietStepBudget(e, a);
    QuietStepRank(e, a);
  }

  lemma QuietStepStaysUp(s: Sys, a: Action)
    requires !s.pc.Down? && Fits(s, a) && Quiet(a)
    ensures !Apply(s, a).pc.Down?
  {
  }

  lemma {:induction false} StaysUp(s: Sys, run: seq<Action>)
    requires !s.pc.Down? && Legal(s, run) && QuietRun(run)
    ensures !Exec(s, run).pc.Down?
    decreases |run|
  {
    if run != [] {
      StaysUp(s, Init(run));
      QuietStepStaysUp(Exec(s, Init(run)), Last(run));
    }
  }
}
