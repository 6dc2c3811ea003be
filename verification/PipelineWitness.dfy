/** A run that shows which stronger claim about the completion hook would be false. */
module PipelineWitness {
  import opened Domain
  import opened Timestamps
  import opened RequestStore
  import opened Pipeline

  /** The run is legal from the empty database and ends in s. */
  ghost predicate Leads(run: seq<Action>, s: Sys) {
    Legal(Initial(), run) && Exec(Initial(), run) == s
  }

  ghost predicate Steps(s: Sys, a: Action, s': Sys) {
    Enabled(s, a) && Apply(s, a) == s'
  }

  lemma Extend(run: seq<Action>, s: Sys, a: Action, s': Sys) returns (longer: seq<Action>)
    requires Leads(run, s) && Steps(s, a, s')
    ensures Leads(longer, s')
  {
    longer := run + [a];
    assert Init(longer) == run && Last(longer) == a;
  }

  /** One row, in the hands of a worker at pc, with a tally of returns to the queue. */
  function One(id: Id, row: Row, pc: Pc, tally: map<Id, Tally>): Sys {
    var active := if pc.Idle? || (pc.Working? && pc.phase.Registering?) then map[] else map[id := false];
    Sys(Db(map[id := row], map[]), pc, false, active, [], {id}, map[], tally, {})
  }

  lemma CreateStep(id: Id, row: Row, now: string)
    requires row == FreshRow(row.client, row.key, row.target, now)
    ensures Steps(Initial().(pc := Idle), Create(id, row.client, row.key, row.target, now), One(id, row, Idle, map[]))
  {
    var none: map<Id, Row> := map[];
    assert none[id := row] == map[id := row];
    var unused: set<Id> := {};
    assert unused + {id} == {id};
  }

  lemma RecoverStep(now: string)
    ensures Steps(Initial(), Recover(now), Initial().(pc := Idle))
  {
    var s := Apply(Initial(), Recover(now));
    assert s.db.rows == map[] && s.tally == map[];
  }

  lemma ClaimEnabled(id: Id, row: Row, tally: map<Id, Tally>, now: string)
    requires Due(row, now)
    ensures Enabled(One(id, row, Idle, tally), Claim(id, now))
  {
    assert OldestDue(Db(map[id := row], map[]), now, id) by { TextTotal(row.created, row.created); }
  }

  lemma ClaimStep(id: Id, row: Row, tally: map<Id, Tally>, now: string)
    requires Enabled(One(id, row, Idle, tally), Claim(id, now))
    ensures var r := row.(state := Resolving, attempts := row.attempts + 1);
            Steps(One(id, row, Idle, tally), Claim(id, now), One(id, r, Working(id, r.attempts, Registering), tally))
  {
    assert ClaimRow(Db(map[id := row], map[]), id).rows ==
           map[id := row.(state := Resolving, attempts := row.attempts + 1)];
  }

  lemma RegisterStep(id: Id, row: Row, tally: map<Id, Tally>)
    ensures Steps(One(id, row, Working(id, row.attempts, Registering), tally), Register,
                  One(id, row, Working(id, row.attempts, AskingResolver), tally))
  {
  }

  lemma ErrEnabled(id: Id, row: Row, tally: map<Id, Tally>, now: string, retryAt: string)
    requires RetryClock(row.attempts, now, retryAt)
    ensures Enabled(One(id, row, Working(id, row.attempts, AskingResolver), tally),
            ResolverErr(Transient, now, retryAt))
  {
  }

  lemma ErrStep(id: Id, row: Row, tally: map<Id, Tally>, now: string, retryAt: string)
    requires row.attempts < MAX_ATTEMPTS
    ensures var s := One(id, row, Working(id, row.attempts, AskingResolver), tally);
            var a := ResolverErr(Transient, now, retryAt);
            Fits(s, a) && Apply(s, a) ==
                One(id, row, Working(id, row.attempts, Requeuing(Resolving, retryAt, TemporarilyUnavailable)), tally)
  {
    assert AfterError(false, row.attempts, Resolving, Transient, now, retryAt) ==
           Requeuing(Resolving, retryAt, TemporarilyUnavailable);
    assert !Interrupted(One(id, row, Working(id, row.attempts, AskingResolver), tally), id);
  }

  lemma RequeueStep(id: Id, row: Row, next: string)
    requires row.state == Resolving
    ensures var r := row.(state := Queued, next := Some(next), code := TemporarilyUnavailable);
            Steps(One(id, row, Working(id, row.attempts, Requeuing(Resolving, next, TemporarilyUnavailable)), map[]),
                  WriteRequeue, One(id, r, Leaving(id), map[id := Tally(1, 0, 0)]))
  {
    var s := One(id, row, Working(id, row.attempts, Requeuing(Resolving, next, TemporarilyUnavailable)), map[]);
    var r := row.(state := Queued, next := Some(next), code := TemporarilyUnavailable);
    assert s.db.rows[id := r] == map[id := r];
    assert s.tally[id := Tally(1, 0, 0)] == map[id := Tally(1, 0, 0)];
  }

  lemma LeaveStep(id: Id, row: Row, tally: map<Id, Tally>)
    ensures Steps(One(id, row, Leaving(id), tally), Leave, One(id, row, Idle, tally))
  {
  }

  lemma SavedStep(id: Id, row: Row, tally: map<Id, Tally>)
    requires row.state == Resolving
    ensures Steps(One(id, row, Working(id, row.attempts, SavingNode), tally), SaveNode,
                  One(id, row.(state := Locating), Working(id, row.attempts, AskingProvider), tally))
  {
    var s := One(id, row, Working(id, row.attempts, SavingNode), tally);
    assert s.db.rows[id := row.(state := Locating)] == map[id := row.(state := Locating)];
  }

  lemma AnswerSteps(id: Id, row: Row, tally: map<Id, Tally>)
    ensures Steps(One(id, row, Working(id, row.attempts, AskingResolver), tally), ResolverOk,
                  One(id, row, Working(id, row.attempts, SavingNode), tally))
    ensures Steps(One(id, row, Working(id, row.attempts, AskingProvider), tally), ProviderOk(CellOnly),
                  One(id, row, Working(id, row.attempts, Completing(false)), tally))
  {
  }

  lemma AnnounceSteps(id: Id, row: Row, tally: map<Id, Tally>, now: string) returns (s1: Sys, s2: Sys)
    requires row.state == Locating
    ensures Steps(One(id, row, Working(id, row.attempts, Completing(false)), tally), WriteComplete(now), s1)
    ensures Steps(s1, Notify, s2)
    ensures s2.effects == [Notified(id, Completed, NoCode)] && id in s2.db.rows && s2.db.rows[id].code == row.code
  {
    s1 := Apply(One(id, row, Working(id, row.attempts, Completing(false)), tally), WriteComplete(now));
    s2 := Apply(s1, Notify);
  }

  lemma ToTheResolver(run: seq<Action>, id: Id, row: Row, tally: map<Id, Tally>, now: string)
    returns (longer: seq<Action>)
    requires Leads(run, One(id, row, Idle, tally)) && Due(row, now)
    ensures var r := row.(state := Resolving, attempts := row.attempts + 1);
            Leads(longer, One(id, r, Working(id, r.attempts, AskingResolver), tally))
  {
    var r := row.(state := Resolving, attempts := row.attempts + 1);
    ClaimEnabled(id, row, tally, now);
    ClaimStep(id, row, tally, now);
    longer := Extend(run, One(id, row, Idle, tally), Claim(id, now),
        One(id, r, Working(id, r.attempts, Registering), tally));
    RegisterStep(id, r, tally);
    longer := Extend(longer, One(id, r, Working(id, r.attempts, Registering), tally), Register,
                     One(id, r, Working(id, r.attempts, AskingResolver), tally));
  }

  lemma BackToTheQueue(run: seq<Action>, id: Id, row: Row, now: string, retryAt: string) returns (longer: seq<Action>)
    requires row.state == Resolving && row.attempts < MAX_ATTEMPTS
    requires Leads(run, One(id, row, Working(id, row.attempts, AskingResolver), map[]))
    requires Enabled(One(id, row, Working(id, row.attempts, AskingResolver), map[]),
             ResolverErr(Transient, now, retryAt))
    ensures var r := row.(state := Queued, next := Some(retryAt), code := TemporarilyUnavailable);
            Leads(longer, One(id, r, Idle, map[id := Tally(1, 0, 0)]))
  {
    var r := row.(state := Queued, next := Some(retryAt), code := TemporarilyUnavailable);
    var tally := map[id := Tally(1, 0, 0)];
    var s1 := One(id, row, Working(id, row.attempts, Requeuing(Resolving, retryAt, TemporarilyUnavailable)), map[]);
    ErrStep(id, row, map[], now, retryAt);
    longer := Extend(run, One(id, row, Working(id, row.attempts, AskingResolver), map[]),
        ResolverErr(Transient, now, retryAt), s1);
    RequeueStep(id, row, retryAt);
    longer := Extend(longer, s1, WriteRequeue, One(id, r, Leaving(id), tally));
    LeaveStep(id, r, tally);
    longer := Extend(longer, One(id, r, Leaving(id), tally), Leave, One(id, r, Idle, tally));
  }

  lemma ToTheEnd(run: seq<Action>, id: Id, row: Row, tally: map<Id, Tally>, now: string)
    returns (longer: seq<Action>, s: Sys)
    requires row.state == Resolving
    requires Leads(run, One(id, row, Working(id, row.attempts, AskingResolver), tally))
    ensures Leads(longer, s)
    ensures s.effects == [Notified(id, Completed, NoCode)] && id in s.db.rows && s.db.rows[id].code == row.code
  {
    var r := row.(state := Locating);
    AnswerSteps(id, row, tally);
    longer := Extend(run, One(id, row, Working(id, row.attempts, AskingResolver), tally), ResolverOk,
                     One(id, row, Working(id, row.attempts, SavingNode), tally));
    SavedStep(id, row, tally);
    longer := Extend(longer, One(id, row, Working(id, row.attempts, SavingNode), tally), SaveNode,
                     One(id, r, Working(id, r.attempts, AskingProvider), tally));
    AnswerSteps(id, r, tally);
    longer := Extend(longer, One(id, r, Working(id, r.attempts, AskingProvider), tally), ProviderOk(CellOnly),
                     One(id, r, Working(id, r.attempts, Completing(false)), tally));
    var s1, s2 := AnnounceSteps(id, r, tally, now);
    longer := Extend(longer, One(id, r, Working(id, r.attempts, Completing(false)), tally), WriteComplete(now), s1);
    longer := Extend(longer, s1, Notify, s2);
    s := s2;
  }

  lemma IntoTheQueue(id: Id, row: Row, now: string) returns (run: seq<Action>)
    requires row == FreshRow(row.client, row.key, row.target, now)
    ensures Leads(run, One(id, row, Idle, map[]))
  {
    RecoverStep(now);
    run := Extend([], Initial(), Recover(now), Initial().(pc := Idle));
    CreateStep(id, row, now);
    run := Extend(run, Initial().(pc := Idle), Create(id, row.client, row.key, row.target, now),
        One(id, row, Idle, map[]));
  }

  lemma FirstAttempt(run: seq<Action>, id: Id, row: Row, now: string, later: string)
    returns (longer: seq<Action>, waiting: Row)
    requires Leads(run, One(id, row, Idle, map[])) && row.state == Queued && row.next == None && row.attempts == 0
    requires RetryClock(row.attempts + 1, now, later)
    ensures Leads(longer, One(id, waiting, Idle, map[id := Tally(1, 0, 0)]))
    ensures waiting.state == Queued && waiting.next == Some(later) && waiting.code == TemporarilyUnavailable
  {
    longer := ToTheResolver(run, id, row, map[], now);
    var taken := row.(state := Resolving, attempts := row.attempts + 1);
    ErrEnabled(id, taken, map[], now, later);
    longer := BackToTheQueue(longer, id, taken, now, later);
    waiting := taken.(state := Queued, next := Some(later), code := TemporarilyUnavailable);
  }

  lemma SecondAttempt(run: seq<Action>, id: Id, waiting: Row, later: string) returns (longer: seq<Action>, s: Sys)
    requires Leads(run, One(id, waiting, Idle, map[id := Tally(1, 0, 0)])) && Due(waiting, later)
    ensures Leads(longer, s)
    ensures s.effects == [Notified(id, Completed, NoCode)] && id in s.db.rows && s.db.rows[id].code == waiting.code
  {
    var again := waiting.(state := Resolving, attempts := waiting.attempts + 1);
    longer := ToTheResolver(run, id, waiting, map[id := Tally(1, 0, 0)], later);
    longer, s := ToTheEnd(longer, id, again, map[id := Tally(1, 0, 0)], later);
  }

  /**
    A request that fails once transiently and then completes: the hook announces no failure code
    while the stored row still says temporarily_unavailable.
   */
  lemma StaleCodeAfterRetry(id: Id, t: Instant) returns (run: seq<Action>)
    requires Valid(t) && t.year < 9999
    ensures Legal(Initial(), run)
    ensures var e := Exec(Initial(), run);
            && e.effects == [Notified(id, Completed, NoCode)]
            && id in e.db.rows && e.db.rows[id].code == TemporarilyUnavailable
  {
    var u := AddSeconds(t, 1);
    assert RetryClock(1, Utc(t), Utc(u)) by { assert Scheduled(1, t, u); }
    var waiting, s;
    var row := FreshRow("c", "k", "t", Utc(t));
    run := IntoTheQueue(id, row, Utc(t));
    run, waiting := FirstAttempt(run, id, row, Utc(t), Utc(u));
    run, s := SecondAttempt(run, id, waiting, Utc(u));
  }
}
