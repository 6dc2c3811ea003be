/** What becomes of a request whose resolver or provider reported an error. */
module PipelineErrors {
  import opened Domain
  import opened RequestStore
  import opened Pipeline
  import opened PipelineSafety

  predicate IsError(a: Action) {
    a.ResolverErr? || a.ProviderErr?
  }

  // ---- every return to the queue has a reason --------------------------------------------------

  /** The step reports a transient error about id that nobody interrupted. */
  predicate TransientError(s: Sys, a: Action, id: Id) {
    IsError(a) && s.pc.Working? && s.pc.id == id && !Interrupted(s, id) && a.cause == Transient
  }

  /** The step reports an error about id, of whatever kind, after a shutdown or a cancellation. */
  predicate InterruptedError(s: Sys, a: Action, id: Id) {
    IsError(a) && s.pc.Working? && s.pc.id == id && Interrupted(s, id)
  }

  ghost function TransientErrors(run: seq<Action>, id: Id): nat
    requires Legal(Initial(), run)
    decreases |run|
  {
    if run == [] then 0
    else TransientErrors(Init(run), id) + (if TransientError(Exec(Initial(), Init(run)), Last(run), id) then 1 else 0)
  }

  ghost function InterruptedErrors(run: seq<Action>, id: Id): nat
    requires Legal(Initial(), run)
    decreases |run|
  {
    if run == [] then 0
    else
      var s := Exec(Initial(), Init(run));
      InterruptedErrors(Init(run), id) + if InterruptedError(s, Last(run), id) then 1 else 0
  }

  function Recoveries(run: seq<Action>): nat {
    if run == [] then 0 else Recoveries(Init(run)) + (if Last(run).Recover? then 1 else 0)
  }

  /** The worker is about to put id back with this code. */
  function AboutToRequeue(s: Sys, id: Id, code: Code): nat {
    if s.pc.Working? && s.pc.id == id && s.pc.phase.Requeuing? && s.pc.phase.code == code then 1 else 0
  }

  function TransientBook(s: Sys, id: Id): nat {
    TallyOf(s, id).transient + AboutToRequeue(s, id, TemporarilyUnavailable)
  }

  function InterruptedBook(s: Sys, id: Id): nat {
    TallyOf(s, id).interrupted + AboutToRequeue(s, id, ShutdownInterrupted)
  }

  lemma BooksByErrors(s: Sys, a: Action, id: Id)
    requires PcOk(s) && Fits(s, a) && IsError(a)
    ensures TransientBook(Apply(s, a), id) <= TransientBook(s, id) + (if TransientError(s, a, id) then 1 else 0)
    ensures InterruptedBook(Apply(s, a), id) <= InterruptedBook(s, id) + (if InterruptedError(s, a, id) then 1 else 0)
  {
    assert Apply(s, a).tally == s.tally;
  }

  lemma BooksByRequeue(s: Sys, a: Action, id: Id)
    requires PcOk(s) && Fits(s, a) && a.WriteRequeue?
    ensures TransientBook(Apply(s, a), id) <= TransientBook(s, id)
    ensures InterruptedBook(Apply(s, a), id) <= InterruptedBook(s, id)
  {
    if s.pc.id == id && Hit(s.db, id, s.pc.phase.from) {
      RequeueBooks(s, a, id);
    }
  }

  lemma BooksByRecovery(s: Sys, a: Action, id: Id)
    requires RowsOk(s) && Fits(s, a) && a.Recover?
    ensures TransientBook(Apply(s, a), id) <= TransientBook(s, id)
    ensures InterruptedBook(Apply(s, a), id) <= InterruptedBook(s, id)
    ensures TallyOf(Apply(s, a), id).recovered <= TallyOf(s, id).recovered + 1
  {
  }

  lemma BooksByOthers(s: Sys, a: Action, id: Id)
    requires Fits(s, a) && !IsError(a) && !a.WriteRequeue? && !a.Recover?
    ensures TransientBook(Apply(s, a), id) <= TransientBook(s, id)
    ensures InterruptedBook(Apply(s, a), id) <= InterruptedBook(s, id)
  {
    TallyUntouched(s, a);
    NoNewRequeue(s, a, id);
  }

  lemma TallyUntouched(s: Sys, a: Action)
    requires Fits(s, a) && !a.WriteRequeue? && !a.Recover?
    ensures Apply(s, a).tally == s.tally
  {
    if !FromOutside(a) {
      WorkerKeepsTally(s, a);
    }
  }

  lemma WorkerKeepsTally(s: Sys, a: Action)
    requires Fits(s, a) && !a.WriteRequeue? && !FromOutside(a)
    ensures Apply(s, a).tally == s.tally
  {
  }

  lemma NoNewRequeue(s: Sys, a: Action, id: Id)
    requires Fits(s, a) && !IsError(a)
    ensures forall code :: AboutToRequeue(Apply(s, a), id, code) <= AboutToRequeue(s, id, code)
  {
    if FromOutside(a) {
      OutsideKeepsPc(s, a);
    } else {
      WorkerEntersNoRequeue(s, a);
    }
  }

  lemma OutsideKeepsPc(s: Sys, a: Action)
    requires Fits(s, a) && FromOutside(a)
    ensures Apply(s, a).pc == s.pc || Apply(s, a).pc.Down? || Apply(s, a).pc.Idle?
  {
  }

  lemma WorkerEntersNoRequeue(s: Sys, a: Action)
    requires Fits(s, a) && !IsError(a) && !FromOutside(a)
    ensures Apply(s, a).pc.Working? ==> !Apply(s, a).pc.phase.Requeuing?
  {
  }

  lemma StepBooks(s: Sys, a: Action, id: Id)
    requires RowsOk(s) && PcOk(s) && Fits(s, a)
    ensures TransientBook(Apply(s, a), id) <= TransientBook(s, id) + (if TransientError(s, a, id) then 1 else 0)
    ensures InterruptedBook(Apply(s, a), id) <= InterruptedBook(s, id) + (if InterruptedError(s, a, id) then 1 else 0)
    ensures TallyOf(Apply(s, a), id).recovered <= TallyOf(s, id).recovered + (if a.Recover? then 1 else 0)
  {
    if IsError(a) {
      BooksByErrors(s, a, id);
      TallyUntouched(s, a);
    } else if a.WriteRequeue? {
      BooksByRequeue(s, a, id);
    } else if a.Recover? {
      BooksByRecovery(s, a, id);
    } else {
      BooksByOthers(s, a, id);
      TallyUntouched(s, a);
    }
  }

  /**
    Theorem: over any run a request was put back for a transient failure at most as often as a transient
    error was reported about it uninterrupted, for an interruption at most as often as an error was reported
    after one, and by recovery at most as often as the process recovered.
   */
  lemma {:induction false} RequeuesExplained(run: seq<Action>, id: Id)
    requires Legal(Initial(), run)
    ensures var t := TallyOf(Exec(Initial(), run), id);
            && t.transient <= TransientErrors(run, id) && t.interrupted <= InterruptedErrors(run, id)
            && t.recovered <= Recoveries(run)
    ensures TransientBook(Exec(Initial(), run), id) <= TransientErrors(run, id)
    ensures InterruptedBook(Exec(Initial(), run), id) <= InterruptedErrors(run, id)
    decreases |run|
  {
    if run != [] {
      RequeuesExplained(Init(run), id);
      Reachable(Init(run));
      StepBooks(Exec(Initial(), Init(run)), Last(run), id);
    }
  }

  // ---- a permanent error is final --------------------------------------------------------------

  /** Failed with network_failure or cancelled, or held by a worker that is about to fail it so. */
  ghost predicate Doomed(s: Sys, id: Id) {
    || (id in s.fate && s.fate[id] == Cancelled)
    || (id in s.fate && s.fate[id] == Failed && (id in s.db.rows ==> s.db.rows[id].code == NetworkFailure))
    || AboutToFail(s, id)
  }

  predicate AboutToFail(s: Sys, id: Id) {
    s.pc.Working? && s.pc.id == id && s.pc.phase.Failing? && s.pc.phase.code == NetworkFailure
  }

  /** The write that would fail the request is lost: the store cannot be reached, or the process dies first. */
  predicate LosesWrite(s: Sys, a: Action, id: Id) {
    AboutToFail(s, id) && (a.StoreError? || a.Crash?)
  }

  lemma FateDoomed(s: Sys, a: Action, id: Id)
    requires RowsOk(s) && PcOk(s) && Fits(s, a) && id in s.fate && Doomed(s, id) && s.fate[id] != Completed
    ensures Doomed(Apply(s, a), id) && !(a.Claim? && a.id == id)
  {
    StepFreezesTerminal(s, a, id);
  }

  lemma FailureWritten(s: Sys, a: Action, id: Id)
    requires RowsOk(s) && PcOk(s) && Fits(s, a) && id !in s.fate && AboutToFail(s, id) && !LosesWrite(s, a, id)
    ensures Doomed(Apply(s, a), id) && !(a.Claim? && a.id == id)
  {
    if a.WriteFail? {
      assert Hit(s.db, id, s.pc.phase.from);
      assert Apply(s, a).db.rows[id].code == NetworkFailure;
    } else if !a.CancelCommit? || a.id != id {
      assert FromOutside(a);
      OutsideLeavesHolder(s, a);
    }
  }

  lemma OutsideLeavesHolder(s: Sys, a: Action)
    requires Fits(s, a) && FromOutside(a) && s.pc.Working? && !a.Crash?
    ensures Apply(s, a).pc == s.pc
  {
  }

  lemma DoomStays(s: Sys, a: Action, id: Id)
    requires RowsOk(s) && PcOk(s) && Fits(s, a) && Doomed(s, id) && !LosesWrite(s, a, id)
    ensures Doomed(Apply(s, a), id) && !(a.Claim? && a.id == id)
  {
    if id in s.fate {
      FateDoomed(s, a, id);
    } else {
      FailureWritten(s, a, id);
    }
  }

  /** Somewhere in the continuation the failing write is lost. */
  ghost predicate WriteLost(s: Sys, more: seq<Action>, id: Id)
    requires Legal(s, more)
    decreases |more|
  {
    more != [] && (WriteLost(s, Init(more), id) || LosesWrite(Exec(s, Init(more)), Last(more), id))
  }

  predicate NeverClaimed(more: seq<Action>, id: Id) {
    more == [] || (NeverClaimed(Init(more), id) && !(Last(more).Claim? && Last(more).id == id))
  }

  lemma {:induction false} DoomedRun(s: Sys, more: seq<Action>, id: Id)
    requires Inv(s) && Legal(s, more) && Doomed(s, id) && !WriteLost(s, more, id)
    ensures Inv(Exec(s, more)) && Doomed(Exec(s, more), id) && NeverClaimed(more, id)
    decreases |more|
  {
    if more != [] {
      DoomedRun(s, Init(more), id);
      DoomedStep(Exec(s, Init(more)), Last(more), id);
    }
  }

  lemma DoomedStep(s: Sys, a: Action, id: Id)
    requires Inv(s) && Enabled(s, a) && Doomed(s, id) && !LosesWrite(s, a, id)
    ensures Inv(Apply(s, a)) && Doomed(Apply(s, a), id) && !(a.Claim? && a.id == id)
  {
    StepKeepsInv(s, a);
    DoomStays(s, a, id);
  }

  /** Failed by a permanent error, or cancelled meanwhile, if settled at all. */
  predicate FailedOrCancelled(e: Sys, id: Id) {
    id in e.db.rows && e.db.rows[id].state.Terminal() ==>
      e.db.rows[id].state == Cancelled || (e.db.rows[id].state == Failed && e.db.rows[id].code == NetworkFailure)
  }

  lemma DoomedRow(e: Sys, id: Id)
    requires RowsOk(e) && PcOk(e) && Doomed(e, id)
    ensures FailedOrCancelled(e, id)
  {
  }

  lemma PermanentErrorDooms(s: Sys, a: Action)
    requires Fits(s, a) && IsError(a) && a.cause == Permanent && !Interrupted(s, s.pc.id)
    ensures AboutToFail(Apply(s, a), s.pc.id)
  {
  }

  /**
    Theorem: once a permanent error has been reported about a request whose worker was neither stopped nor
    told of a cancellation, no continuation ever claims it again, unless the write that fails it is lost; and
    if it is settled it is cancelled, or failed with network_failure.
   */
  lemma PermanentErrorIsFinal(run: seq<Action>, a: Action, more: seq<Action>)
    requires Legal(Initial(), run) && Enabled(Exec(Initial(), run), a) && IsError(a) && a.cause == Permanent
    requires var s := Exec(Initial(), run); !s.stopping && !(s.pc.id in s.active && s.active[s.pc.id])
    requires Legal(Apply(Exec(Initial(), run), a), more)
    ensures var id, s := Exec(Initial(), run).pc.id, Apply(Exec(Initial(), run), a);
            WriteLost(s, more, id) || (NeverClaimed(more, id) && FailedOrCancelled(Exec(s, more), id))
  {
    Reachable(run);
    var s := Exec(Initial(), run);
    StepKeepsInv(s, a);
    PermanentErrorDooms(s, a);
    FinalFrom(Apply(s, a), more, s.pc.id);
  }

  lemma FinalFrom(s: Sys, more: seq<Action>, id: Id)
    requires Inv(s) && AboutToFail(s, id) && Legal(s, more)
    ensures WriteLost(s, more, id) || (NeverClaimed(more, id) && FailedOrCancelled(Exec(s, more), id))
  {
    if !WriteLost(s, more, id) {
      DoomedRun(s, more, id);
      DoomedRow(Exec(s, more), id);
    }
  }
}
