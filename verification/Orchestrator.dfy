/**
  The worker's own code, run against the store. Between any two of its store calls the environment
  (clients submitting and cancelling, retention, shutdown) may act; whatever it does, the execution is a
  run of the pipeline's step system, so everything proved about runs holds of this code.
 */
module Orchestrator {
  import opened Domain
  import opened Timestamps
  import opened RequestStore
  import opened Pipeline
  import opened PipelineSafety

  /** Deleting by text cut is deleting some terminal rows and some results. */
  lemma PurgeIsRemoval(db: Db, requestCut: string, resultCut: string)
    ensures var after := PurgeRows(db, requestCut, resultCut);
            && RemovedRows(db, db.rows.Keys - after.rows.Keys, db.results.Keys - after.results.Keys) == after
            && (forall id :: id in db.rows.Keys - after.rows.Keys ==> db.rows[id].state.Terminal())
  {
    var after := PurgeRows(db, requestCut, resultCut);
    var removed := RemovedRows(db, db.rows.Keys - after.rows.Keys, db.results.Keys - after.results.Keys);
    assert removed.rows == after.rows;
    assert removed.results == after.results;
  }

  lemma PurgeEnabled(s: Sys, requestCut: string, resultCut: string, a: Action)
    requires var after := PurgeRows(s.db, requestCut, resultCut);
             a == Purge(s.db.rows.Keys - after.rows.Keys, s.db.results.Keys - after.results.Keys)
    ensures Enabled(s, a)
    ensures Apply(s, a) ==
            s.(db := PurgeRows(s.db, requestCut, resultCut), purged := s.purged + (a.goneResults * s.db.results.Keys))
  {
    PurgeIsRemoval(s.db, requestCut, resultCut);
  }

  /** A scheduled request is never claimed while the clock is in an earlier second than its next attempt. */
  lemma ClaimRespectsSchedule(s: Sys, id: Id, now: Instant, next: Instant)
    requires Enabled(s, Claim(id, Utc(now))) && Valid(now) && Valid(next) && s.db.rows[id].next == Some(Utc(next))
    ensures Seconds(next) <= Seconds(now)
  {
    if Seconds(now) < Seconds(next) { NotDueInEarlierSecond(s.db.rows[id], next, now); }
  }

  ghost predicate AllCancelled(s: Sys, ids: set<Id>) {
    forall id :: id in ids ==> id in s.fate && s.fate[id] == Cancelled
  }

  /** A legal step extends the run, and cancelled requests stay cancelled. */
  lemma RunExtends(run: seq<Action>, s: Sys, a: Action, ids: set<Id>)
    requires Legal(Initial(), run) && Exec(Initial(), run) == s && Enabled(s, a) && AllCancelled(s, ids)
    ensures Legal(Initial(), run + [a]) && Exec(Initial(), run + [a]) == Apply(s, a) && AllCancelled(Apply(s, a), ids)
  {
    assert Init(run + [a]) == run && Last(run + [a]) == a;
    Reachable(run);
    forall id | id in ids ensures id in Apply(s, a).fate && Apply(s, a).fate[id] == Cancelled {
      FateStays(s, a, id);
    }
  }

  lemma RowsWereUsed(run: seq<Action>)
    requires Legal(Initial(), run)
    ensures Exec(Initial(), run).db.rows.Keys <= Exec(Initial(), run).used
  {
    Reachable(run);
  }

  lemma CreateStep(s: Sys, id: Id, client: string, key: string, target: string, now: string)
    requires id !in s.used && s.db.rows.Keys <= s.used && !KeyTaken(s.db, client, key)
    ensures Fits(s, Create(id, client, key, target, now))
    ensures Apply(s, Create(id, client, key, target, now)) ==
            s.(db := Insert(s.db, id, FreshRow(client, key, target, now)), used := s.used + {id})
  {
  }

  lemma ClaimStep(s: Sys, id: Id, now: string)
    requires s.pc.Idle? && !s.stopping && Hit(s.db, id, Queued)
    ensures Fits(s, Claim(id, now))
    ensures Apply(s, Claim(id, now)) ==
            s.(db := ClaimRow(s.db, id), pc := Working(id, s.db.rows[id].attempts + 1, Registering))
  {
  }

  lemma ErrorStep(s: Sys, from: State, err: Action)
    requires s.pc.Working?
    requires (from == Resolving && s.pc.phase == AskingResolver && err.ResolverErr?)
             || (from == Locating && s.pc.phase == AskingProvider && err.ProviderErr?)
    requires RetryClock(s.pc.att, err.now, err.retryAt)
    ensures Enabled(s, err)
    ensures Apply(s, err) ==
            Enter(s, AfterError(Interrupted(s, s.pc.id), s.pc.att, from, err.cause, err.now, err.retryAt))
  {
  }

  lemma CompleteStep(s: Sys, id: Id, att: nat, fix: bool, at: string)
    requires s.pc == Working(id, att, Completing(fix))
    ensures Enabled(s, WriteComplete(at))
    ensures var after := Apply(s, WriteComplete(at));
            && after == s.(db := CompleteRow(s.db, id, at), pc := after.pc, fate := after.fate)
            && after.pc == if !Hit(s.db, id, Locating) then Leaving(id)
                           else if fix then Recording(id) else Notifying(id, Completed, NoCode)
  {
  }

  lemma RequeueStep(s: Sys, id: Id, att: nat, from: State, next: string, code: Code)
    requires s.pc == Working(id, att, Requeuing(from, next, code))
    ensures Enabled(s, WriteRequeue)
    ensures Apply(s, WriteRequeue) ==
            s.(db := RequeueRow(s.db, id, from, next, code), pc := Leaving(id), tally := Apply(s, WriteRequeue).tally)
  {
  }

  /** Some clock reading. */
  method ReadClock() returns (t: Instant)
    ensures Valid(t) && t.year < 9999
  {
    assert Valid(Instant(2024, 1, 1, 0, 0, 0, 0));
    t :| Valid(t) && t.year < 9999;
  }

  /** utc(time.Now()) */
  method Now() returns (text: string)
  {
    var t := ReadClock();
    text := Utc(t);
  }

  /** time.Now() and, when a retry would be scheduled, the time of the retry. */
  method RetryTimes(att: nat) returns (text: string, retryAt: string)
    ensures RetryClock(att, text, retryAt)
  {
    var now := ReadClock();
    assert RetryDelaySeconds(1) == 1 && RetryDelaySeconds(2) == 2;
    var later := if att < MAX_ATTEMPTS then AddSeconds(now, RetryDelaySeconds(att)) else now;
    assert Scheduled(att, now, later);
    text, retryAt := Utc(now), Utc(later);
  }

  /** What the provider does: answer, or return an error. */
  datatype Reply = Answered(answer: Answer) | Erred(cause: Cause)

  function FailureNotice(id: Id, cause: Cause): Effect {
    Notified(id, Failed, if cause == Permanent then NetworkFailure else TemporarilyUnavailable)
  }

  /** What one iteration announces, if it settles its request, for each thing resolver and provider can do. */
  ghost predicate Announces(was: seq<Effect>, now: seq<Effect>, id: Id, att: nat, resolver: Option<Cause>,
                            provider: Reply)
  {
    match resolver
    case Some(cause) => now == was + [FailureNotice(id, cause)] && (cause == Transient ==> att >= 3)
    case None =>
      match provider
      case Erred(cause) => now == was + [FailureNotice(id, cause)] && (cause == Transient ==> att >= 3)
      case Answered(NoResult) => now == was + [Notified(id, Failed, NoImmediateResult)]
      case Answered(CellOnly) => now == was + [Notified(id, Completed, NoCode)]
      case Answered(Fix) =>
        || now == was + [Notified(id, Completed, NoCode)]
        || now == was + [HistoryPoint(id)] + [Notified(id, Completed, NoCode)]
  }

  /** A failure that was announced is the one the row, if it is still there, tells of. */
  lemma NoticeMatchesRow(run: seq<Action>, i: nat)
    requires Legal(Initial(), run) && i < |Exec(Initial(), run).effects|
    requires Exec(Initial(), run).effects[i].Notified? && Exec(Initial(), run).effects[i].state == Failed
    ensures var e := Exec(Initial(), run); var n := e.effects[i];
            n.id in e.db.rows ==> e.db.rows[n.id].state == Failed && e.db.rows[n.id].code == n.code
  {
    Reachable(run);
    SettledRow(Exec(Initial(), run), i);
  }

  lemma SettledRow(e: Sys, i: nat)
    requires RowsOk(e) && EffectsOk(e) && i < |e.effects| && e.effects[i].Notified? && e.effects[i].state == Failed
    ensures var n := e.effects[i];
            n.id in e.db.rows ==> e.db.rows[n.id].state == Failed && e.db.rows[n.id].code == n.code
  {
  }

  class Worker {
    const store: Store
    var active: map<Id, bool>
    var stopping: bool
    var effects: seq<Effect>
    // The rest of the process: ids handed out so far, cancellations whose signal may still come.
    var issued: set<Id>
    var cancelled: set<Id>
    // The run so far and the state it has led to.
    ghost var trace: seq<Action>
    ghost var sys: Sys

    ghost predicate Running()
      reads this
    {
      && Legal(Initial(), trace) && Exec(Initial(), trace) == sys
      && AllCancelled(sys, cancelled)
    }

    ghost predicate Valid()
      reads this, store
    {
      && Running()
      && sys.db == store.View() && sys.active == active && sys.stopping == stopping
      && sys.effects == effects && sys.used == issued
    }

    /**
      A worker over whatever earlier processes left: before is the run so far, ended by a crash, with the
      ids it handed out and the effects it had.
     */
    constructor (store: Store, issued: set<Id>, effects: seq<Effect>, ghost before: seq<Action>)
      requires Legal(Initial(), before) && (before == [] || Last(before).Crash?)
      requires var s := Exec(Initial(), before); s.db == store.View() && s.used == issued && s.effects == effects
      ensures this.store == store && Valid() && trace == before && sys.pc.Down?
    {
      this.store, this.issued, this.effects := store, issued, effects;
      active, stopping, cancelled := map[], false, {};
      trace, sys := before, Exec(Initial(), before);
    }

    ghost method Log(a: Action)
      requires Running() && Enabled(sys, a)
      modifies this`trace, this`sys
      ensures Running() && sys == Apply(old(sys), a) && trace == old(trace) + [a]
    {
      RunExtends(trace, sys, a, cancelled);
      sys, trace := Apply(sys, a), trace + [a];
    }

    /** Process start: rows the previous process left active go back to the queue before the worker starts. */
    method Boot()
      requires Valid() && sys.pc.Down?
      modifies this, store
      ensures Valid() && sys.pc.Idle? && effects == old(effects)
      ensures forall id :: id in store.rows ==> store.rows[id].state != Resolving && store.rows[id].state != Locating
    {
      var now := Now();
      store.Recover(now);
      Log(Pipeline.Recover(now));
    }

    // ---- the environment --------------------------------------------------------------------

    method Submit(id: Id, client: string, key: string, target: string, now: string)
      requires Valid()
      modifies this, store
      ensures Valid() && sys.pc == old(sys.pc) && effects == old(effects)
    {
      if id !in issued {
        var outcome, stored := store.CreateRequest(id, FreshRow(client, key, target, now), true);
        if outcome == Done {
          RowsWereUsed(trace);
          CreateStep(sys, id, client, key, target, now);
          Log(Create(id, client, key, target, now));
          issued := issued + {id};
        }
      }
    }

    method CancelByClient(id: Id)
      requires Valid()
      modifies this, store
      ensures Valid() && sys.pc == old(sys.pc) && effects == old(effects)
      ensures id in old(store.rows) && !old(store.rows)[id].state.Terminal() ==>
                store.rows == old(store.rows)[id := old(store.rows)[id].(state := Cancelled, code := CancelledByClient)]
      ensures !(id in old(store.rows) && !old(store.rows)[id].state.Terminal()) ==> store.rows == old(store.rows)
    {
      var outcome := store.TransitionRequest(id, Cancelled, CancelledByClient, true);
      if outcome == Done {
        Log(CancelCommit(id));
        cancelled := cancelled + {id};
      }
    }

    /** Worker.Cancel: the service's hook, called some time after its cancellation committed. */
    method Cancel(id: Id)
      requires Valid() && id in cancelled
      modifies this
      ensures Valid() && sys.pc == old(sys.pc) && effects == old(effects)
      ensures active == if id in old(active) then old(active)[id := true] else old(active)
    {
      if id in active {
        active := active[id := true];
      }
      Log(CancelSignal(id));
    }

    method Retain(requestBefore: string, resultBefore: string)
      requires Valid()
      modifies this, store
      ensures Valid() && sys.pc == old(sys.pc) && effects == old(effects)
    {
      ghost var before := store.View();
      store.Purge(requestBefore, resultBefore);
      ghost var purge := Purge(before.rows.Keys - store.rows.Keys, before.results.Keys - store.results.Keys);
      PurgeEnabled(sys, requestBefore, resultBefore, purge);
      Log(purge);
    }

    method EnvironmentStep()
      requires Valid()
      modifies this, store
      ensures Valid() && sys.pc == old(sys.pc) && effects == old(effects)
    {
      var id: Id := *;
      if * {
        CancelByClient(id);
      } else if * {
        if id in cancelled {
          Cancel(id);
        }
      } else if * {
        stopping := true;
        Log(Shutdown);
      } else {
        TimedEnvironmentStep(id);
      }
    }

    method TimedEnvironmentStep(id: Id)
      requires Valid()
      modifies this, store
      ensures Valid() && sys.pc == old(sys.pc) && effects == old(effects)
    {
      var now := Now();
      var cut := Now();
      if * {
        var client: string, key: string, target: string := *, *, *;
        Submit(id, client, key, target, now);
      } else {
        Retain(now, cut);
      }
    }

    /** Anything the rest of the process does between two store calls of the worker. */
    method Interfere()
      requires Valid()
      modifies this, store
      ensures Valid() && sys.pc == old(sys.pc) && effects == old(effects)
    {
      var steps: nat := *;
      while steps > 0
        invariant Valid() && sys.pc == old(sys.pc) && effects == old(effects)
        decreases steps
      {
        EnvironmentStep();
        steps := steps - 1;
      }
    }

    // ---- one iteration of the worker --------------------------------------------------------

    predicate ContextCancelled(id: Id)
      reads this
    {
      stopping || (id in active && active[id])
    }

    /**
      Worker.one: claim, resolve, locate and settle one request; false when nothing is due. resolver is the
      error the resolver returns, if any, and provider what the provider does.
     */
    method One(resolver: Option<Cause>, provider: Reply) returns (worked: bool, id: Id, att: nat)
      requires Valid() && sys.pc.Idle?
      modifies this, store
      ensures Valid() && sys.pc.Idle?
      ensures !worked ==> trace == old(trace) && store.View() == old(store.View())
      ensures effects == old(effects) || (worked && Announces(old(effects), effects, id, att, resolver, provider))
    {
      var now := Now();
      worked, id, att := ClaimNext(now);
      if worked {
        Interfere();
        RegisterContext(id, att);
        Interfere();
        Process(id, att, resolver, provider);
        Interfere();
        DropContext(id);
      }
    }

    /** From the registered context to letting go of the request. */
    method Process(id: Id, att: nat, resolver: Option<Cause>, provider: Reply)
      requires Valid() && sys.pc == Working(id, att, AskingResolver)
      modifies this, store
      ensures Valid() && sys.pc == Leaving(id)
      ensures effects == old(effects) || Announces(old(effects), effects, id, att, resolver, provider)
    {
      match resolver
      case None =>
        NodeResolved(id, att);
        Interfere();
        Position(id, att, provider);
      case Some(cause) => ResolverFailed(id, att, cause);
    }

    /** A context cancelled by the stop fails the transaction. */
    method ClaimNext(now: string) returns (found: bool, id: Id, att: nat)
      requires Valid() && sys.pc.Idle?
      modifies this, store
      ensures Valid()
      ensures if found then sys.pc == Working(id, att, Registering) else trace == old(trace) && sys == old(sys)
      ensures effects == old(effects) && (!found ==> store.View() == old(store.View()))
      ensures found ==> !old(stopping)
    {
      var reachable: bool := *;
      found, id, att := store.ClaimNextQueued(now, reachable && !stopping);
      if found {
        LogClaim(id, now);
      }
    }

    ghost method LogClaim(id: Id, now: string)
      requires Running() && sys.pc.Idle? && !sys.stopping && OldestDue(sys.db, now, id)
      modifies this`trace, this`sys
      ensures Running()
      ensures sys == old(sys).(db := ClaimRow(old(sys).db, id),
              pc := Working(id, old(sys).db.rows[id].attempts + 1, Registering))
    {
      ClaimStep(sys, id, now);
      Log(Claim(id, now));
    }

    method RegisterContext(id: Id, att: nat)
      requires Valid() && sys.pc == Working(id, att, Registering)
      modifies this
      ensures Valid() && sys.pc == Working(id, att, AskingResolver) && effects == old(effects)
      ensures active == old(active)[id := false]
    {
      active := active[id := false];
      Log(Register);
    }

    ghost method NodeResolved(id: Id, att: nat)
      requires Valid() && sys.pc == Working(id, att, AskingResolver)
      modifies this
      ensures Valid() && sys.pc == Working(id, att, SavingNode) && effects == old(effects)
    {
      Log(ResolverOk);
    }

    /** The deferred cleanup of one. */
    method DropContext(id: Id)
      requires Valid() && sys.pc == Leaving(id)
      modifies this
      ensures Valid() && sys.pc.Idle? && effects == old(effects) && active == old(active) - {id}
    {
      active := active - {id};
      Log(Leave);
    }

    /** The serving node is known: store it, ask for the position and settle the request. */
    method Position(id: Id, att: nat, provider: Reply)
      requires Valid() && sys.pc == Working(id, att, SavingNode)
      modifies this, store
      ensures Valid() && sys.pc == Leaving(id)
      ensures effects == old(effects) || Announces(old(effects), effects, id, att, None, provider)
    {
      var reachable: bool := *;
      var saved := SaveServingNode(id, att, reachable);
      if saved {
        Interfere();
        match provider
        case Answered(answer) => Settle(id, att, answer);
        case Erred(cause) => ProviderFailed(id, att, cause);
      }
    }

    /** An answer of the provider: no result fails the request, anything else completes it. */
    method Settle(id: Id, att: nat, answer: Answer)
      requires Valid() && sys.pc == Working(id, att, AskingProvider)
      modifies this, store
      ensures Valid() && sys.pc == Leaving(id)
      ensures effects == old(effects) || Announces(old(effects), effects, id, att, None, Answered(answer))
    {
      var reachable: bool, recorded: bool := *, *;
      PositionAnswered(id, att, answer);
      Interfere();
      if answer == NoResult {
        var wrote := WriteFailure(id, att, Locating, NoImmediateResult, reachable);
      } else {
        var wrote := WriteResult(id, att, answer == Fix, reachable, recorded);
      }
    }

    method SaveServingNode(id: Id, att: nat, reachable: bool) returns (saved: bool)
      requires Valid() && sys.pc == Working(id, att, SavingNode)
      modifies this, store
      ensures Valid() && sys.pc == if saved then Working(id, att, AskingProvider) else Leaving(id)
      ensures effects == old(effects)
      ensures saved <==> reachable && id in old(store.rows) && old(store.rows)[id].state == Resolving
      ensures saved ==> store.rows == old(store.rows)[id := old(store.rows)[id].(state := Locating)]
      ensures !saved ==> store.rows == old(store.rows)
    {
      var outcome := store.SaveServingNodeAndLocate(id, reachable);
      Log(if outcome == IoError then StoreError else SaveNode);
      saved := outcome == Done;
    }

    ghost method PositionAnswered(id: Id, att: nat, answer: Answer)
      requires Valid() && sys.pc == Working(id, att, AskingProvider)
      modifies this
      ensures Valid() && effects == old(effects)
      ensures answer == NoResult ==> sys.pc == Working(id, att, Failing(Locating, NoImmediateResult))
      ensures answer != NoResult ==> sys.pc == Working(id, att, Completing(answer == Fix))
    {
      Log(ProviderOk(answer));
    }

    method ResolverFailed(id: Id, att: nat, cause: Cause)
      requires Valid() && sys.pc == Working(id, att, AskingResolver)
      modifies this, store
      ensures Valid() && sys.pc == Leaving(id)
      ensures old(stopping) || (id in old(active) && old(active)[id]) ==> effects == old(effects)
      ensures effects == old(effects) || effects == old(effects) + [FailureNotice(id, cause)]
      ensures cause == Transient && att < 3 ==> effects == old(effects)
    {
      var reachable: bool := *;
      var now, retryAt := RetryTimes(att);
      var interrupted := ContextCancelled(id);
      ErrorReturned(id, att, Resolving, ResolverErr(cause, now, retryAt));
      Interfere();
      var wrote := HandleError(id, att, Resolving, interrupted, cause, now, retryAt, reachable);
    }

    method ProviderFailed(id: Id, att: nat, cause: Cause)
      requires Valid() && sys.pc == Working(id, att, AskingProvider)
      modifies this, store
      ensures Valid() && sys.pc == Leaving(id)
      ensures old(stopping) || (id in old(active) && old(active)[id]) ==> effects == old(effects)
      ensures effects == old(effects) || effects == old(effects) + [FailureNotice(id, cause)]
      ensures cause == Transient && att < 3 ==> effects == old(effects)
    {
      var reachable: bool := *;
      var now, retryAt := RetryTimes(att);
      var interrupted := ContextCancelled(id);
      ErrorReturned(id, att, Locating, ProviderErr(cause, now, retryAt));
      Interfere();
      var wrote := HandleError(id, att, Locating, interrupted, cause, now, retryAt, reachable);
    }

    ghost method ErrorReturned(id: Id, att: nat, from: State, err: Action)
      requires Valid() && sys.pc.Working? && sys.pc.id == id && sys.pc.att == att
      requires (from == Resolving && sys.pc.phase == AskingResolver && err.ResolverErr?)
               || (from == Locating && sys.pc.phase == AskingProvider && err.ProviderErr?)
      requires RetryClock(att, err.now, err.retryAt)
      modifies this
      ensures Valid() && stopping == old(stopping) && active == old(active) && effects == old(effects)
      ensures sys.pc == Working(id, att,
              AfterError(old(ContextCancelled(id)), att, from, err.cause, err.now, err.retryAt))
    {
      ErrorStep(sys, from, err);
      Log(err);
    }

    /**
      The interruption branch of one, and handleError, by what the store holds once the write took effect:
      back in the queue for now when interrupted, failed with network_failure for a permanent error, failed
      with temporarily_unavailable for a transient one out of attempts, and otherwise back in the queue for
      the retry time. wrote is whether the write took effect.
     */
    method HandleError(id: Id, att: nat, from: State, interrupted: bool, cause: Cause, now: string, retryAt: string,
                       reachable: bool)
      returns (wrote: bool)
      requires Valid() && sys.pc == Working(id, att, AfterError(interrupted, att, from, cause, now, retryAt))
      modifies this, store
      ensures Valid() && sys.pc == Leaving(id)
      ensures wrote <==> reachable && id in old(store.rows) && old(store.rows)[id].state == from
      ensures !wrote ==> store.rows == old(store.rows) && effects == old(effects)
      ensures wrote && interrupted ==>
                && effects == old(effects) && id in store.rows
                && store.rows[id] ==
                    old(store.rows)[id].(state := Queued, code := ShutdownInterrupted, next := Some(now))
      ensures wrote && !interrupted && cause == Permanent ==>
                && effects == old(effects) + [Notified(id, Failed, NetworkFailure)]
                && (id in store.rows ==> store.rows[id].state == Failed && store.rows[id].code == NetworkFailure)
      ensures wrote && !interrupted && cause == Transient && att >= 3 ==>
                && effects == old(effects) + [Notified(id, Failed, TemporarilyUnavailable)]
                && (id in store.rows ==>
                      store.rows[id].state == Failed && store.rows[id].code == TemporarilyUnavailable)
      ensures wrote && !interrupted && cause == Transient && att < 3 ==>
                && effects == old(effects) && id in store.rows
                && store.rows[id] ==
                    old(store.rows)[id].(state := Queued, code := TemporarilyUnavailable, next := Some(retryAt))
    {
      if interrupted {
        wrote := WriteBack(id, att, from, now, ShutdownInterrupted, reachable);
      } else if cause == Permanent {
        wrote := WriteFailure(id, att, from, NetworkFailure, reachable);
      } else if att >= MAX_ATTEMPTS {
        wrote := WriteFailure(id, att, from, TemporarilyUnavailable, reachable);
      } else {
        wrote := WriteBack(id, att, from, retryAt, TemporarilyUnavailable, reachable);
      }
    }

    method WriteBack(id: Id, att: nat, from: State, next: string, code: Code, reachable: bool) returns (wrote: bool)
      requires Valid() && sys.pc == Working(id, att, Requeuing(from, next, code))
      modifies this, store
      ensures Valid() && sys.pc == Leaving(id) && effects == old(effects)
      ensures wrote <==> reachable && id in old(store.rows) && old(store.rows)[id].state == from
      ensures wrote ==>
                store.rows == old(store.rows)[id :=
                    old(store.rows)[id].(state := Queued, code := code, next := Some(next))]
      ensures !wrote ==> store.rows == old(store.rows)
    {
      ghost var before := sys;
      var outcome := store.Requeue(id, from, next, code, reachable);
      wrote := outcome == Done;
      if reachable {
        RequeueStep(before, id, att, from, next, code);
        Log(WriteRequeue);
      } else {
        Log(StoreError);
      }
    }

    /** The hook is called exactly if the failure was stored; by then the row may have been purged. */
    method WriteFailure(id: Id, att: nat, from: State, code: Code, reachable: bool) returns (wrote: bool)
      requires Valid() && sys.pc == Working(id, att, Failing(from, code))
      modifies this, store
      ensures Valid() && sys.pc == Leaving(id)
      ensures wrote <==> reachable && id in old(store.rows) && old(store.rows)[id].state == from
      ensures !wrote ==> store.rows == old(store.rows) && effects == old(effects)
      ensures wrote ==> effects == old(effects) + [Notified(id, Failed, code)]
      ensures wrote && id in store.rows ==> store.rows[id].state == Failed && store.rows[id].code == code
    {
      wrote := StoreFailure(id, att, from, code, reachable);
      if wrote {
        Interfere();
        NotifyCompletion(id, Failed, code);
        NoticeMatchesRow(trace, |effects| - 1);
      }
    }

    method StoreFailure(id: Id, att: nat, from: State, code: Code, reachable: bool) returns (wrote: bool)
      requires Valid() && sys.pc == Working(id, att, Failing(from, code))
      modifies this, store
      ensures Valid() && effects == old(effects)
      ensures sys.pc == if wrote then Notifying(id, Failed, code) else Leaving(id)
      ensures wrote <==> reachable && id in old(store.rows) && old(store.rows)[id].state == from
      ensures wrote ==> store.rows == old(store.rows)[id := old(store.rows)[id].(state := Failed, code := code)]
      ensures !wrote ==> store.rows == old(store.rows)
    {
      var outcome := store.FailRequest(id, from, code, reachable);
      Log(if outcome == IoError then StoreError else WriteFail);
      wrote := outcome == Done;
    }

    /** A fix is worth a history point, recorded or not; the hook is called exactly if the completion was stored. */
    method WriteResult(id: Id, att: nat, fix: bool, reachable: bool, recorded: bool) returns (wrote: bool)
      requires Valid() && sys.pc == Working(id, att, Completing(fix))
      modifies this, store
      ensures Valid() && sys.pc == Leaving(id)
      ensures wrote <==> reachable && id in old(store.rows) && old(store.rows)[id].state == Locating
      ensures !wrote ==> store.rows == old(store.rows) && effects == old(effects)
      ensures wrote && fix && recorded ==>
                effects == old(effects) + [HistoryPoint(id)] + [Notified(id, Completed, NoCode)]
      ensures wrote && !(fix && recorded) ==> effects == old(effects) + [Notified(id, Completed, NoCode)]
    {
      var at := Now();
      wrote := CompleteRequest(id, att, fix, at, reachable);
      if wrote {
        Interfere();
        if fix {
          RecordHistory(id, recorded);
          Interfere();
        }
        NotifyCompletion(id, Completed, NoCode);
      }
    }

    method CompleteRequest(id: Id, att: nat, fix: bool, at: string, reachable: bool) returns (done: bool)
      requires Valid() && sys.pc == Working(id, att, Completing(fix))
      modifies this, store
      ensures Valid() && effects == old(effects)
      ensures sys.pc == if !done then Leaving(id) else if fix then Recording(id) else Notifying(id, Completed, NoCode)
      ensures done <==> reachable && id in old(store.rows) && old(store.rows)[id].state == Locating
      ensures done ==>
                && store.rows == old(store.rows)[id := old(store.rows)[id].(state := Completed)]
                && store.results == old(store.results)[id := at]
      ensures !done ==> store.rows == old(store.rows) && store.results == old(store.results)
    {
      ghost var before := sys;
      var outcome := store.CompleteRequest(id, at, reachable);
      done := outcome == Done;
      if reachable {
        CompleteStep(before, id, att, fix, at);
        Log(WriteComplete(at));
      } else {
        Log(StoreError);
      }
    }

    /** Best effort: the point may or may not be recorded. */
    method RecordHistory(id: Id, recorded: bool)
      requires Valid() && sys.pc == Recording(id)
      modifies this
      ensures Valid() && sys.pc == Notifying(id, Completed, NoCode)
      ensures effects == if recorded then old(effects) + [HistoryPoint(id)] else old(effects)
    {
      if recorded {
        effects := effects + [HistoryPoint(id)];
      }
      Log(RecordPoint(recorded));
    }

    method NotifyCompletion(id: Id, state: State, code: Code)
      requires Valid() && sys.pc == Notifying(id, state, code)
      modifies this
      ensures Valid() && sys.pc == Leaving(id)
      ensures effects == old(effects) + [Notified(id, state, code)]
    {
      effects := effects + [Notified(id, state, code)];
      Log(Notify);
    }
  }
}
