/** What every step of the pipeline keeps, and what follows for whole runs. */
module PipelineSafety {
  import opened Domain
  import opened RequestStore
  import opened Pipeline

  /** Steps of clients, retention and the process as a whole. */
  predicate FromOutside(a: Action) {
    a.Create? || a.CancelCommit? || a.CancelSignal? || a.Purge? || a.Shutdown? || a.Crash? || a.Recover?
  }

  // ---- the shapes a step's change can take --------------------------------------------------

  /** Nothing durable and no effect changes. */
  lemma UntouchedTables(s: Sys, s': Sys)
    requires Core(s)
    requires s' == s.(pc := s'.pc, active := s'.active, stopping := s'.stopping)
    ensures RowsOk(s') && ResultsOk(s') && EffectsOk(s')
  {
  }

  /** Past effects keep speaking about settled requests when settled rows keep their code or go away. */
  lemma EffectsStay(s: Sys, s': Sys)
    requires EffectsOk(s) && s'.effects == s.effects
    requires forall id :: id in s.fate ==> id in s'.fate && s'.fate[id] == s.fate[id]
    requires forall id :: id in s.fate && id in s'.db.rows ==>
               id in s.db.rows && s'.db.rows[id].code == s.db.rows[id].code
    ensures EffectsOk(s')
  {
  }

  /** One live row moves to another live state. */
  lemma LiveRowMoves(s: Sys, s': Sys, id: Id, row: Row)
    requires Core(s)
    requires s' == s.(pc := s'.pc, db := s.db.(rows := s.db.rows[id := row]), tally := s'.tally)
    requires id in s.db.rows && !s.db.rows[id].state.Terminal() && !row.state.Terminal()
    requires s'.tally == s.tally || s'.tally == s.tally[id := TallyOf(s', id)]
    ensures RowsOk(s') && ResultsOk(s') && EffectsOk(s')
  {
  }

  /** One live row becomes terminal; a completed one gets its result in the same statement. */
  lemma LiveRowSettles(s: Sys, s': Sys, id: Id, row: Row, at: string)
    requires Core(s)
    requires s' == s.(pc := s'.pc, db := Db(s.db.rows[id := row], s'.db.results), fate := s.fate[id := row.state])
    requires id in s.db.rows && !s.db.rows[id].state.Terminal()
    requires row.state.Completed? || row.state.Failed? || row.state.Cancelled?
    requires s'.db.results == if row.state.Completed? then s.db.results[id := at] else s.db.results
    ensures RowsOk(s') && ResultsOk(s') && EffectsOk(s')
  {
    SettlingRowTables(s, s', id, row, at);
    EffectsStay(s, s');
  }

  lemma SettlingRowTables(s: Sys, s': Sys, id: Id, row: Row, at: string)
    requires RowsOk(s) && ResultsOk(s)
    requires s'.db.rows == s.db.rows[id := row] && s'.fate == s.fate[id := row.state]
    requires s'.used == s.used && s'.tally == s.tally && s'.purged == s.purged
    requires id in s.db.rows && !s.db.rows[id].state.Terminal()
    requires row.state.Completed? || row.state.Failed? || row.state.Cancelled?
    requires s'.db.results == if row.state.Completed? then s.db.results[id := at] else s.db.results
    ensures RowsOk(s') && ResultsOk(s')
  {
  }

  // ---- every step keeps the invariant -------------------------------------------------------

  lemma CreateKeepsTables(s: Sys, a: Action)
    requires Core(s) && Fits(s, a) && a.Create?
    ensures var s' := Apply(s, a); RowsOk(s') && ResultsOk(s') && EffectsOk(s')
  {
    var s' := Apply(s, a);
    assert RowsOk(s') && ResultsOk(s') && EffectsOk(s');
  }

  lemma CancelKeepsTables(s: Sys, a: Action)
    requires Core(s) && Fits(s, a) && a.CancelCommit?
    ensures var s' := Apply(s, a); RowsOk(s') && ResultsOk(s') && EffectsOk(s')
  {
    var s' := Apply(s, a);
    LiveRowSettles(s, s', a.id, s'.db.rows[a.id], "");
  }

  lemma PurgeKeepsTables(s: Sys, a: Action)
    requires Core(s) && Fits(s, a) && a.Purge?
    ensures var s' := Apply(s, a); RowsOk(s') && ResultsOk(s') && EffectsOk(s')
  {
    var s' := Apply(s, a);
    assert RowsOk(s') && ResultsOk(s') && EffectsOk(s');
  }

  lemma RecoverKeepsTables(s: Sys, a: Action)
    requires Core(s) && Fits(s, a) && a.Recover?
    ensures var s' := Apply(s, a); RowsOk(s') && ResultsOk(s') && EffectsOk(s')
  {
    EffectsStay(s, Apply(s, a));
    RecoverTables(s, a);
  }

  lemma RecoverTables(s: Sys, a: Action)
    requires RowsOk(s) && ResultsOk(s) && Fits(s, a) && a.Recover?
    ensures RowsOk(Apply(s, a)) && ResultsOk(Apply(s, a))
  {
    var s' := Apply(s, a);
    assert s'.db.rows.Keys == s.db.rows.Keys && s'.tally.Keys == s.used;
    forall id | id in s.db.rows
      ensures s.db.rows[id].state.Terminal() || s'.db.rows[id].state.Terminal() ==> s'.db.rows[id] == s.db.rows[id]
    {
      assert s'.db.rows[id] == RecoverRow(s.db.rows[id], a.now);
    }
  }

  lemma SignalKeepsTables(s: Sys, a: Action)
    requires Core(s) && Fits(s, a)
             && (a.CancelSignal? || a.Shutdown? || a.Crash? || a.Register? || a.Leave? || a.StoreError?)
    ensures var s' := Apply(s, a); RowsOk(s') && ResultsOk(s') && EffectsOk(s')
  {
    UntouchedTables(s, Apply(s, a));
  }

  lemma AnswerKeepsTables(s: Sys, a: Action)
    requires Core(s) && Fits(s, a) && (a.ResolverOk? || a.ResolverErr? || a.ProviderOk? || a.ProviderErr?)
    ensures var s' := Apply(s, a); RowsOk(s') && ResultsOk(s') && EffectsOk(s')
  {
    UntouchedTables(s, Apply(s, a));
  }

  lemma ClaimKeepsTables(s: Sys, a: Action)
    requires Core(s) && Fits(s, a) && a.Claim?
    ensures var s' := Apply(s, a); RowsOk(s') && ResultsOk(s') && EffectsOk(s')
  {
    var s' := Apply(s, a);
    LiveRowMoves(s, s', a.id, s'.db.rows[a.id]);
  }

  lemma SaveNodeKeepsTables(s: Sys, a: Action)
    requires Core(s) && Fits(s, a) && a.SaveNode?
    ensures var s' := Apply(s, a); RowsOk(s') && ResultsOk(s') && EffectsOk(s')
  {
    var s' := Apply(s, a);
    if Hit(s.db, s.pc.id, Resolving) {
      LiveRowMoves(s, s', s.pc.id, s'.db.rows[s.pc.id]);
    } else {
      UntouchedTables(s, s');
    }
  }

  lemma RequeueKeepsTables(s: Sys, a: Action)
    requires Core(s) && Fits(s, a) && a.WriteRequeue?
    ensures var s' := Apply(s, a); RowsOk(s') && ResultsOk(s') && EffectsOk(s')
  {
    var s' := Apply(s, a);
    if Hit(s.db, s.pc.id, s.pc.phase.from) {
      LiveRowMoves(s, s', s.pc.id, s'.db.rows[s.pc.id]);
    } else {
      UntouchedTables(s, s');
    }
  }

  lemma FailKeepsTables(s: Sys, a: Action)
    requires Core(s) && Fits(s, a) && a.WriteFail?
    ensures var s' := Apply(s, a); RowsOk(s') && ResultsOk(s') && EffectsOk(s')
  {
    var s' := Apply(s, a);
    if Hit(s.db, s.pc.id, s.pc.phase.from) {
      LiveRowSettles(s, s', s.pc.id, s'.db.rows[s.pc.id], "");
    } else {
      UntouchedTables(s, s');
    }
  }

  lemma CompleteKeepsTables(s: Sys, a: Action)
    requires Core(s) && Fits(s, a) && a.WriteComplete?
    ensures var s' := Apply(s, a); RowsOk(s') && ResultsOk(s') && EffectsOk(s')
  {
    var s' := Apply(s, a);
    if Hit(s.db, s.pc.id, Locating) {
      LiveRowSettles(s, s', s.pc.id, s'.db.rows[s.pc.id], a.now);
    } else {
      UntouchedTables(s, s');
    }
  }

  lemma RecordKeepsTables(s: Sys, a: Action)
    requires Core(s) && Fits(s, a) && a.RecordPoint?
    ensures var s' := Apply(s, a); RowsOk(s') && ResultsOk(s') && EffectsOk(s')
  {
    if a.ok {
      EffectAdded(s, Apply(s, a), HistoryPoint(s.pc.id));
    }
  }

  lemma NotifyKeepsTables(s: Sys, a: Action)
    requires Core(s) && Fits(s, a) && a.Notify?
    ensures var s' := Apply(s, a); RowsOk(s') && ResultsOk(s') && EffectsOk(s')
  {
    EffectAdded(s, Apply(s, a), Notified(s.pc.id, s.pc.state, s.pc.code));
  }

  /** A first effect of its kind about a settled request. */
  lemma EffectAdded(s: Sys, s': Sys, e: Effect)
    requires EffectsOk(s) && s'.effects == s.effects + [e] && s'.db == s.db && s'.fate == s.fate
    requires if e.Notified? then Settled(s, e.id, e.state, e.code) && Unnoticed(s, e.id)
             else Settled(s, e.id, Completed, NoCode) && e !in s.effects
    ensures EffectsOk(s')
  {
    forall i | 0 <= i < |s.effects| ensures !SameEffect(s.effects[i], e) {
      assert s.effects[i] in s.effects;
    }
  }

  /** A step of the environment leaves the worker holding what it held. */
  lemma PcKeptByOthers(s: Sys, a: Action)
    requires RowsOk(s) && PcOk(s) && Fits(s, a)
    requires a.Create? || a.CancelCommit? || a.Purge? || a.CancelSignal? || a.Shutdown? || a.Crash? || a.Recover?
    ensures PcOk(Apply(s, a))
  {
  }

  lemma PcKeptByAnswers(s: Sys, a: Action)
    requires PcOk(s) && Fits(s, a) && (a.ResolverOk? || a.ResolverErr? || a.ProviderOk? || a.ProviderErr?)
    ensures PcOk(Apply(s, a))
  {
  }

  lemma PcKeptByClaim(s: Sys, a: Action)
    requires RowsOk(s) && Fits(s, a) && a.Claim?
    ensures PcOk(Apply(s, a))
  {
  }

  lemma PcKeptBySave(s: Sys, a: Action)
    requires PcOk(s) && Fits(s, a) && a.SaveNode?
    ensures PcOk(Apply(s, a))
  {
  }

  lemma PcKeptByProgress(s: Sys, a: Action)
    requires PcOk(s) && Fits(s, a) && (a.Register? || a.WriteRequeue? || a.Leave? || a.StoreError?)
    ensures PcOk(Apply(s, a))
  {
  }

  /** Nothing has been announced about a request that is not settled. */
  lemma LiveUnnoticed(s: Sys, id: Id)
    requires EffectsOk(s) && id !in s.fate
    ensures Unnoticed(s, id) && HistoryPoint(id) !in s.effects
  {
  }

  lemma PcKeptByFail(s: Sys, a: Action)
    requires RowsOk(s) && PcOk(s) && EffectsOk(s) && Fits(s, a) && a.WriteFail?
    ensures PcOk(Apply(s, a))
  {
    if Hit(s.db, s.pc.id, s.pc.phase.from) {
      LiveUnnoticed(s, s.pc.id);
      assert Unnoticed(Apply(s, a), s.pc.id);
    }
  }

  lemma PcKeptByComplete(s: Sys, a: Action)
    requires RowsOk(s) && PcOk(s) && EffectsOk(s) && Fits(s, a) && a.WriteComplete?
    ensures PcOk(Apply(s, a))
  {
    if Hit(s.db, s.pc.id, Locating) {
      LiveUnnoticed(s, s.pc.id);
      assert Unnoticed(Apply(s, a), s.pc.id);
    }
  }

  lemma PcKeptByEffects(s: Sys, a: Action)
    requires PcOk(s) && Fits(s, a) && (a.RecordPoint? || a.Notify?)
    ensures PcOk(Apply(s, a))
  {
  }

  lemma PcKept(s: Sys, a: Action)
    requires RowsOk(s) && PcOk(s) && EffectsOk(s) && Fits(s, a)
    ensures PcOk(Apply(s, a))
  {
    if a.WriteFail? {
      PcKeptByFail(s, a);
    } else if a.WriteComplete? {
      PcKeptByComplete(s, a);
    } else if a.RecordPoint? || a.Notify? {
      PcKeptByEffects(s, a);
    } else if a.ResolverOk? || a.ResolverErr? || a.ProviderOk? || a.ProviderErr? {
      PcKeptByAnswers(s, a);
    } else if a.Claim? {
      PcKeptByClaim(s, a);
    } else if a.SaveNode? {
      PcKeptBySave(s, a);
    } else if a.Register? || a.WriteRequeue? || a.Leave? || a.StoreError? {
      PcKeptByProgress(s, a);
    } else {
      PcKeptByOthers(s, a);
    }
  }

  lemma ActiveKept(s: Sys, a: Action)
    requires RowsOk(s) && PcOk(s) && ActiveOk(s) && Fits(s, a)
    ensures ActiveOk(Apply(s, a))
  {
    forall id | id in Apply(s, a).active && Apply(s, a).active[id]
      ensures id in Apply(s, a).fate && Apply(s, a).fate[id] == Cancelled
    {
      SignalledBefore(s, a, id);
      FateStays(s, a, id);
    }
  }

  lemma SignalledBefore(s: Sys, a: Action, id: Id)
    requires ActiveOk(s) && Fits(s, a) && id in Apply(s, a).active && Apply(s, a).active[id]
    ensures id in s.fate && s.fate[id] == Cancelled
  {
    if !a.CancelSignal? && !a.Register? && !a.Leave? && !a.Crash? {
      ActiveUntouched(s, a);
    }
  }

  lemma ActiveUntouched(s: Sys, a: Action)
    requires Fits(s, a) && !a.CancelSignal? && !a.Register? && !a.Leave? && !a.Crash?
    ensures Apply(s, a).active == s.active
  {
    if !FromOutside(a) {
      WorkerKeepsActive(s, a);
    }
  }

  lemma WorkerKeepsActive(s: Sys, a: Action)
    requires Fits(s, a) && !FromOutside(a) && !a.Register? && !a.Leave?
    ensures Apply(s, a).active == s.active
  {
  }

  lemma TablesKept(s: Sys, a: Action)
    requires Core(s) && Fits(s, a)
    ensures var s' := Apply(s, a); RowsOk(s') && ResultsOk(s') && EffectsOk(s')
  {
    match a
    case Create(_, _, _, _, _) => CreateKeepsTables(s, a);
    case CancelCommit(_) => CancelKeepsTables(s, a);
    case Purge(_, _) => PurgeKeepsTables(s, a);
    case Recover(_) => RecoverKeepsTables(s, a);
    case Claim(_, _) => ClaimKeepsTables(s, a);
    case SaveNode => SaveNodeKeepsTables(s, a);
    case WriteRequeue => RequeueKeepsTables(s, a);
    case WriteFail => FailKeepsTables(s, a);
    case WriteComplete(_) => CompleteKeepsTables(s, a);
    case RecordPoint(_) => RecordKeepsTables(s, a);
    case Notify => NotifyKeepsTables(s, a);
    case ResolverOk => AnswerKeepsTables(s, a);
    case ResolverErr(_, _, _) => AnswerKeepsTables(s, a);
    case ProviderOk(_) => AnswerKeepsTables(s, a);
    case ProviderErr(_, _, _) => AnswerKeepsTables(s, a);
    case _ => SignalKeepsTables(s, a);
  }

  lemma StepKeepsCore(s: Sys, a: Action)
    requires Core(s) && Fits(s, a)
    ensures Core(Apply(s, a))
  {
    TablesKept(s, a);
    PcKept(s, a);
    ActiveKept(s, a);
  }

  // ---- what a step does to one row ----------------------------------------------------------

  /** The row changes the pipeline can make, with the tally each one books. */
  datatype Move = Stay | Take | Locate | GiveBack(code: Code) | Fail(code: Code) | Complete | Cancel | Rescue

  ghost predicate Moved(m: Move, r: Row, t: Tally, r': Row, t': Tally) {
    && r'.created == r.created
    && match m
       case Stay => r' == r && t' == t
       case Take => r.state == Queued && r' == r.(state := Resolving, attempts := r.attempts + 1) && t' == t
       case Locate => r.state == Resolving && r' == r.(state := Locating) && t' == t
       case GiveBack(code) =>
         && r.state.Active() && r' == r.(state := Queued, next := r'.next, code := code) && t' == Bump(t, code)
         && (code == ShutdownInterrupted || (code == TemporarilyUnavailable && r.attempts < MAX_ATTEMPTS))
       case Fail(code) => r.state.Active() && code != NoCode && r' == r.(state := Failed, code := code) && t' == t
       case Complete => r.state == Locating && r' == r.(state := Completed) && t' == t
       case Cancel => !r.state.Terminal() && r' == r.(state := Cancelled, code := CancelledByClient) && t' == t
       case Rescue =>
         r.state.Active() && r' == r.(state := Queued, next := r'.next) && t' == t.(recovered := t.recovered + 1)
  }

  ghost predicate StepMoves(s: Sys, a: Action, id: Id, m: Move)
    requires Fits(s, a) && id in s.db.rows && id in Apply(s, a).db.rows
  {
    Moved(m, s.db.rows[id], TallyOf(s, id), Apply(s, a).db.rows[id], TallyOf(Apply(s, a), id))
  }

  /** Every step makes one of the known moves on every row that survives it. */
  lemma StepMovesRow(s: Sys, a: Action, id: Id) returns (m: Move)
    requires RowsOk(s) && PcOk(s) && Fits(s, a) && id in s.db.rows && id in Apply(s, a).db.rows
    ensures StepMoves(s, a, id, m)
  {
    if a.SaveNode? {
      m := LocateMove(s, a, id);
    } else if a.WriteComplete? {
      m := CompleteMove(s, a, id);
    } else if a.WriteRequeue? {
      m := RequeueMove(s, a, id);
    } else if a.WriteFail? {
      m := FailMove(s, a, id);
    } else if a.Recover? {
      m := RecoverMove(s, a, id);
    } else if a.Claim? || a.CancelCommit? {
      m := TakeOrCancelMove(s, a, id);
    } else {
      NoMove(s, a, id);
      m := Stay;
    }
  }

  lemma LocateMove(s: Sys, a: Action, id: Id) returns (m: Move)
    requires Fits(s, a) && a.SaveNode? && id in s.db.rows
    ensures id in Apply(s, a).db.rows && StepMoves(s, a, id, m) && (m.Stay? || m.Locate?)
  {
    var r := s.db.rows[id];
    assert Apply(s, a).tally == s.tally;
    if s.pc.id == id && Hit(s.db, id, Resolving) {
      assert Apply(s, a).db.rows[id] == r.(state := Locating);
      m := Locate;
    } else {
      assert Apply(s, a).db.rows[id] == r;
      m := Stay;
    }
  }

  lemma CompleteMove(s: Sys, a: Action, id: Id) returns (m: Move)
    requires Fits(s, a) && a.WriteComplete? && id in s.db.rows
    ensures id in Apply(s, a).db.rows && StepMoves(s, a, id, m) && (m.Stay? || m.Complete?)
  {
    var r := s.db.rows[id];
    assert Apply(s, a).tally == s.tally;
    if s.pc.id == id && Hit(s.db, id, Locating) {
      assert Apply(s, a).db.rows[id] == r.(state := Completed);
      m := Complete;
    } else {
      assert Apply(s, a).db.rows[id] == r;
      m := Stay;
    }
  }

  lemma RequeueMove(s: Sys, a: Action, id: Id) returns (m: Move)
    requires PcOk(s) && RowsOk(s) && Fits(s, a) && a.WriteRequeue? && id in s.db.rows
    ensures id in Apply(s, a).db.rows && StepMoves(s, a, id, m)
    ensures m.Stay? || (s.pc.id == id && Hit(s.db, id, s.pc.phase.from) && m == GiveBack(s.pc.phase.code))
  {
    var r := s.db.rows[id];
    if s.pc.id == id && Hit(s.db, id, s.pc.phase.from) {
      RequeueBooks(s, a, id);
      m := GiveBack(s.pc.phase.code);
    } else {
      assert Apply(s, a).db.rows[id] == r && TallyOf(Apply(s, a), id) == TallyOf(s, id);
      m := Stay;
    }
  }

  lemma RequeueBooks(s: Sys, a: Action, id: Id)
    requires Fits(s, a) && a.WriteRequeue? && s.pc.id == id && Hit(s.db, id, s.pc.phase.from)
    ensures var Requeuing(_, next, code) := s.pc.phase;
            && id in Apply(s, a).db.rows
            && Apply(s, a).db.rows[id] == s.db.rows[id].(state := Queued, next := Some(next), code := code)
            && TallyOf(Apply(s, a), id) == Bump(TallyOf(s, id), code)
  {
  }

  lemma FailMove(s: Sys, a: Action, id: Id) returns (m: Move)
    requires PcOk(s) && Fits(s, a) && a.WriteFail? && id in s.db.rows
    ensures id in Apply(s, a).db.rows && StepMoves(s, a, id, m) && (m.Stay? || m.Fail?)
  {
    m := if s.pc.id == id && Hit(s.db, id, s.pc.phase.from) then Fail(s.pc.phase.code) else Stay;
  }

  lemma RecoverMove(s: Sys, a: Action, id: Id) returns (m: Move)
    requires RowsOk(s) && Fits(s, a) && a.Recover? && id in s.db.rows
    ensures id in Apply(s, a).db.rows && StepMoves(s, a, id, m)
  {
    m := if s.db.rows[id].state.Active() then Rescue else Stay;
  }

  lemma TakeOrCancelMove(s: Sys, a: Action, id: Id) returns (m: Move)
    requires Fits(s, a) && (a.CancelCommit? || a.Claim?) && id in s.db.rows
    ensures id in Apply(s, a).db.rows && StepMoves(s, a, id, m)
    ensures m == if a.id != id then Stay else if a.Claim? then Take else Cancel
  {
    m := if a.id != id then Stay else if a.Claim? then Take else Cancel;
  }

  lemma NoMove(s: Sys, a: Action, id: Id)
    requires RowsOk(s) && Fits(s, a) && id in s.db.rows && id in Apply(s, a).db.rows
    requires !a.SaveNode? && !a.WriteComplete? && !a.WriteRequeue? && !a.WriteFail? && !a.Recover? && !a.Claim?
             && !a.CancelCommit?
    ensures StepMoves(s, a, id, Stay)
  {
    if !FromOutside(a) {
      WorkerLeavesTables(s, a);
    }
    assert Apply(s, a).db.rows[id] == s.db.rows[id];
    assert Apply(s, a).tally == s.tally;
    Stays(s.db.rows[id], TallyOf(s, id));
  }

  lemma WorkerLeavesTables(s: Sys, a: Action)
    requires Fits(s, a) && !FromOutside(a)
    requires !a.SaveNode? && !a.WriteComplete? && !a.WriteRequeue? && !a.WriteFail? && !a.Claim?
    ensures Apply(s, a).db == s.db && Apply(s, a).tally == s.tally
  {
  }

  lemma Stays(r: Row, t: Tally)
    ensures Moved(Stay, r, t, r, t)
  {
  }

  /** A row that appears is a fresh queued one, never tallied. */
  lemma StepAddsRow(s: Sys, a: Action, id: Id)
    requires RowsOk(s) && Fits(s, a) && id !in s.db.rows && id in Apply(s, a).db.rows
    ensures a.Create? && a.newId == id
    ensures var r := Apply(s, a).db.rows[id]; r.state == Queued && r.attempts == 0 && r.code == NoCode
    ensures TallyOf(Apply(s, a), id) == Tally(0, 0, 0)
  {
    if a.Create? {
      assert Apply(s, a).db.rows[id] == FreshRow(a.client, a.key, a.target, a.now) && Apply(s, a).tally == s.tally;
    } else {
      OthersAddNoRow(s, a);
    }
  }

  lemma OthersAddNoRow(s: Sys, a: Action)
    requires Fits(s, a) && !a.Create?
    ensures Apply(s, a).db.rows.Keys <= s.db.rows.Keys
  {
    if !FromOutside(a) {
      WorkerAddsNoRow(s, a);
    }
  }

  lemma WorkerAddsNoRow(s: Sys, a: Action)
    requires Fits(s, a) && !FromOutside(a)
    ensures Apply(s, a).db.rows.Keys <= s.db.rows.Keys
  {
  }

  // ---- attempts and codes -------------------------------------------------------------------

  lemma MoveKeepsBooks(m: Move, r: Row, t: Tally, r': Row, t': Tally)
    requires Moved(m, r, t, r', t') && Booked(r, t)
    ensures Booked(r', t')
  {
  }

  lemma StepKeepsBooks(s: Sys, a: Action, id: Id)
    requires RowsOk(s) && PcOk(s) && Fits(s, a) && id in Apply(s, a).db.rows
    requires id in s.db.rows ==> Booked(s.db.rows[id], TallyOf(s, id))
    ensures Booked(Apply(s, a).db.rows[id], TallyOf(Apply(s, a), id))
  {
    if id in s.db.rows {
      var m := StepMovesRow(s, a, id);
      MoveKeepsBooks(m, s.db.rows[id], TallyOf(s, id), Apply(s, a).db.rows[id], TallyOf(Apply(s, a), id));
    } else {
      StepAddsRow(s, a, id);
    }
  }

  lemma StepKeepsInv(s: Sys, a: Action)
    requires Inv(s) && Fits(s, a)
    ensures Inv(Apply(s, a))
  {
    StepKeepsCore(s, a);
    forall id | id in Apply(s, a).db.rows ensures Booked(Apply(s, a).db.rows[id], TallyOf(Apply(s, a), id)) {
      StepKeepsBooks(s, a, id);
    }
  }

  // ---- whole runs ---------------------------------------------------------------------------

  lemma {:induction false} RunKeepsInv(s: Sys, run: seq<Action>)
    requires Inv(s) && Legal(s, run)
    ensures Inv(Exec(s, run))
    decreases |run|
  {
    if run != [] {
      RunKeepsInv(s, Init(run));
      StepKeepsInv(Exec(s, Init(run)), Last(run));
    }
  }

  /** Every state the pipeline can reach, from an empty database, satisfies the invariant. */
  lemma Reachable(run: seq<Action>)
    requires Legal(Initial(), run)
    ensures Inv(Exec(Initial(), run))
  {
    RunKeepsInv(Initial(), run);
  }

  lemma MoveRespectsCanTransition(m: Move, r: Row, t: Tally, r': Row, t': Tally)
    requires Moved(m, r, t, r', t')
    ensures r.state == r'.state || CanTransition(r.state, r'.state)
    ensures r.state.Terminal() ==> r' == r
  {
  }

  /** Theorem: whatever statement runs, a surviving row moves only along CanTransition. */
  lemma StepsRespectCanTransition(s: Sys, a: Action, id: Id)
    requires RowsOk(s) && PcOk(s) && Fits(s, a) && id in s.db.rows && id in Apply(s, a).db.rows
    ensures var from, to := s.db.rows[id].state, Apply(s, a).db.rows[id].state; from == to || CanTransition(from, to)
  {
    var m := StepMovesRow(s, a, id);
    MoveRespectsCanTransition(m, s.db.rows[id], TallyOf(s, id), Apply(s, a).db.rows[id], TallyOf(Apply(s, a), id));
  }

  lemma FateStays(s: Sys, a: Action, id: Id)
    requires RowsOk(s) && PcOk(s) && Fits(s, a) && id in s.fate
    ensures id in Apply(s, a).fate && Apply(s, a).fate[id] == s.fate[id]
  {
    if a.CancelCommit? {
      assert a.id != id;
    } else if a.WriteFail? || a.WriteComplete? {
      SettlesOnlyLive(s, a, id);
    } else {
      FateUntouched(s, a);
    }
  }

  lemma FateUntouched(s: Sys, a: Action)
    requires Fits(s, a) && !a.CancelCommit? && !a.WriteFail? && !a.WriteComplete?
    ensures Apply(s, a).fate == s.fate
  {
    if !FromOutside(a) {
      WorkerKeepsFate(s, a);
    }
  }

  lemma WorkerKeepsFate(s: Sys, a: Action)
    requires Fits(s, a) && !FromOutside(a) && !a.WriteFail? && !a.WriteComplete?
    ensures Apply(s, a).fate == s.fate
  {
  }

  lemma SettlesOnlyLive(s: Sys, a: Action, id: Id)
    requires RowsOk(s) && PcOk(s) && Fits(s, a) && (a.WriteFail? || a.WriteComplete?) && id in s.fate
    ensures id in Apply(s, a).fate && Apply(s, a).fate[id] == s.fate[id]
  {
    assert s.pc.id == id ==> !Hit(s.db, id, s.pc.phase.RowState());
  }

  lemma StepFreezesTerminal(s: Sys, a: Action, id: Id)
    requires RowsOk(s) && PcOk(s) && Fits(s, a) && id in s.fate
    ensures id in Apply(s, a).fate && Apply(s, a).fate[id] == s.fate[id]
    ensures id in Apply(s, a).db.rows ==> id in s.db.rows && Apply(s, a).db.rows[id] == s.db.rows[id]
  {
    FateStays(s, a, id);
    var s' := Apply(s, a);
    if id in s'.db.rows {
      if id in s.db.rows {
        var m := StepMovesRow(s, a, id);
        MoveRespectsCanTransition(m, s.db.rows[id], TallyOf(s, id), s'.db.rows[id], TallyOf(s', id));
      } else {
        StepAddsRow(s, a, id);
      }
    }
  }

  /**
    Theorem: over any run, a terminal request keeps its terminal state forever, and while its row
    exists the whole row is unchanged. A purged request never comes back.
   */
  lemma {:induction false} TerminalForever(s: Sys, run: seq<Action>, id: Id)
    requires Inv(s) && Legal(s, run) && id in s.fate
    ensures var e := Exec(s, run);
            && id in e.fate && e.fate[id] == s.fate[id]
            && (id in e.db.rows ==> id in s.db.rows && e.db.rows[id] == s.db.rows[id])
    decreases |run|
  {
    if run != [] {
      TerminalForever(s, Init(run), id);
      RunKeepsInv(s, Init(run));
      StepFreezesTerminal(Exec(s, Init(run)), Last(run), id);
    }
  }

  /**
    Theorem: once a cancellation has committed, no continuation of the run, whatever the worker was
    doing at that moment, leaves a result row, a history point or a completion notice for the request.
   */
  lemma CancelSilences(s: Sys, run: seq<Action>, id: Id)
    requires Inv(s) && Legal(s, run) && id in s.db.rows && s.db.rows[id].state == Cancelled
    ensures var e := Exec(s, run);
            && id !in e.db.results
            && (forall i :: 0 <= i < |e.effects| ==> e.effects[i].id != id)
  {
    TerminalForever(s, run, id);
    RunKeepsInv(s, run);
    NothingForCancelled(Exec(s, run), id);
  }

  lemma NothingForCancelled(s: Sys, id: Id)
    requires RowsOk(s) && ResultsOk(s) && EffectsOk(s) && id in s.fate && s.fate[id] == Cancelled
    ensures id !in s.db.results
    ensures forall i :: 0 <= i < |s.effects| ==> s.effects[i].id != id
  {
  }

  /** Theorem: at most two transient retries per request, and attempts bounded by 3 plus the other returns. */
  lemma RetryBudget(run: seq<Action>, id: Id)
    requires Legal(Initial(), run) && id in Exec(Initial(), run).db.rows
    ensures var e := Exec(Initial(), run); var t := TallyOf(e, id);
            && t.transient <= 2
            && e.db.rows[id].attempts <= 3 + t.interrupted + t.recovered
  {
    Reachable(run);
  }

  /** Theorem: handleError always sees attempts >= 1, and the only delays it schedules are one and two seconds. */
  lemma RetryDelays(run: seq<Action>)
    requires Legal(Initial(), run) && Exec(Initial(), run).pc.Working?
    ensures DelayBounded(Exec(Initial(), run).pc)
  {
    Reachable(run);
    DelaysOf(Exec(Initial(), run));
  }

  ghost predicate DelayBounded(pc: Pc)
    requires pc.Working?
  {
    && pc.att >= 1
    && (pc.phase.Requeuing? && pc.phase.code == TemporarilyUnavailable ==> RetryDelaySeconds(pc.att) == pc.att <= 2)
  }

  lemma DelaysOf(s: Sys)
    requires PcOk(s) && s.pc.Working?
    ensures DelayBounded(s.pc)
  {
    assert RetryDelaySeconds(1) == 1 && RetryDelaySeconds(2) == 2;
  }

  /** Theorem: results and completed requests correspond, up to results retention has removed. */
  lemma ResultsMatchCompletion(run: seq<Action>, id: Id)
    requires Legal(Initial(), run)
    ensures var e := Exec(Initial(), run);
            && (id in e.db.results ==> id in e.db.rows && e.db.rows[id].state == Completed)
            && (id in e.db.rows && e.db.rows[id].state == Completed && id !in e.db.results ==> id in e.purged)
  {
    Reachable(run);
  }

  /** The i-th effect is the only notice of its request and announces the state the request has. */
  ghost predicate SoleFaithfulNotice(s: Sys, i: nat)
    requires i < |s.effects| && s.effects[i].Notified?
  {
    var n := s.effects[i];
    && (forall j :: 0 <= j < |s.effects| && j != i && s.effects[j].Notified? ==> s.effects[j].id != n.id)
    && n.id in s.fate && s.fate[n.id] == n.state && (n.state == Completed || n.state == Failed)
    && (n.id in s.db.rows ==> s.db.rows[n.id].state == n.state)
  }

  lemma NoticesFaithful(s: Sys, i: nat)
    requires RowsOk(s) && EffectsOk(s) && i < |s.effects| && s.effects[i].Notified?
    ensures SoleFaithfulNotice(s, i)
  {
    forall j | 0 <= j < |s.effects| && j != i && s.effects[j].Notified? ensures s.effects[j].id != s.effects[i].id {
      assert !SameEffect(s.effects[if i < j then i else j], s.effects[if i < j then j else i]);
    }
  }

  lemma CodeAgreement(r: Row, t: Tally, state: State, code: Code)
    requires Booked(r, t) && r.state == state
    requires (state == Failed && r.code == code) || (state == Completed && code == NoCode)
    ensures r.code == code <==> state == Failed || (t.transient == 0 && t.interrupted == 0)
  {
  }

  lemma NoticeSettled(s: Sys, i: nat)
    requires EffectsOk(s) && i < |s.effects| && s.effects[i].Notified?
    ensures Settled(s, s.effects[i].id, s.effects[i].state, s.effects[i].code)
  {
  }

  lemma BookOf(s: Sys, id: Id)
    requires BooksOk(s) && id in s.db.rows
    ensures Booked(s.db.rows[id], TallyOf(s, id))
  {
  }

  /** Theorem: the completion hook fires at most once per request, with exactly the request's terminal state. */
  lemma HookOncePerRequest(run: seq<Action>, i: nat)
    requires Legal(Initial(), run) && i < |Exec(Initial(), run).effects| && Exec(Initial(), run).effects[i].Notified?
    ensures SoleFaithfulNotice(Exec(Initial(), run), i)
  {
    Reachable(run);
    NoticesFaithful(Exec(Initial(), run), i);
  }

  /**
    Theorem: the failure code the hook announces is the stored one if and only if the request failed or
    was never put back in the queue by its worker: CompleteRequest leaves an earlier requeue's code in place.
   */
  lemma HookCodeIsStoredCode(run: seq<Action>, i: nat)
    requires Legal(Initial(), run) && i < |Exec(Initial(), run).effects| && Exec(Initial(), run).effects[i].Notified?
    requires Exec(Initial(), run).effects[i].id in Exec(Initial(), run).db.rows
    ensures var e := Exec(Initial(), run); var n := e.effects[i]; var t := TallyOf(e, n.id);
            e.db.rows[n.id].code == n.code <==> n.state == Failed || (t.transient == 0 && t.interrupted == 0)
  {
    Reachable(run);
    var e := Exec(Initial(), run);
    var n := e.effects[i];
    NoticesFaithful(e, i);
    NoticeSettled(e, i);
    BookOf(e, n.id);
    CodeAgreement(e.db.rows[n.id], TallyOf(e, n.id), n.state, n.code);
  }
}
