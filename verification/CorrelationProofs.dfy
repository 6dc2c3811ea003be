/** What every interleaving of callers, deliveries, timeouts and competing losses of the connection keeps. */
module CorrelationProofs {
  import opened Domain
  import opened Correlation

  // ---- every step keeps the invariant -------------------------------------------------------

  /** Steps that send on a channel or take an entry for sending. */
  predicate Moves(a: Action) {
    a.Deliver? || a.Send? || a.DrainOne? || a.Receive?
  }

  lemma CallKeptBySends(s: Sys, a: Action, c: Caller)
    requires c in s.calls && CallOk(s, c) && TableOk(s) && FlightsOk(s) && LossOk(s) && Enabled(s, a)
             && (a.Send? || a.DrainOne?)
    ensures CallOk(Apply(s, a), c)
  {
  }

  lemma CallKeptByTable(s: Sys, a: Action, c: Caller)
    requires c in s.calls && CallOk(s, c) && Enabled(s, a)
             && (a.Register? || a.Remove? || a.RemoveClosed? || a.Deliver?)
    ensures CallOk(Apply(s, a), c)
  {
  }

  lemma CallKeptByLoss(s: Sys, a: Action, c: Caller)
    requires c in s.calls && CallOk(s, c) && LossOk(s) && Enabled(s, a)
    requires a.StoreLoss? || a.LateLoss? || a.CloseChannel? || a.LockTable? || a.UnlockTable?
    ensures CallOk(Apply(s, a), c)
  {
  }

  lemma CallKeptByOwner(s: Sys, a: Action, c: Caller)
    requires c in s.calls && CallOk(s, c) && LossOk(s) && Enabled(s, a)
    requires a.Allocate? || a.WriteOk? || a.WriteErr? || a.Receive? || a.Timeout? || a.SeeClosed? || a.ReadLoss?
    ensures CallOk(Apply(s, a), c)
  {
  }

  lemma CallsKept(s: Sys, a: Action)
    requires Inv(s) && Enabled(s, a)
    ensures CallsOk(Apply(s, a))
  {
    forall c | c in s.calls ensures CallOk(Apply(s, a), c) {
      if a.Send? || a.DrainOne? {
        CallKeptBySends(s, a, c);
      } else if a.Register? || a.Remove? || a.RemoveClosed? || a.Deliver? {
        CallKeptByTable(s, a, c);
      } else if a.StoreLoss? || a.LateLoss? || a.CloseChannel? || a.LockTable? || a.UnlockTable? {
        CallKeptByLoss(s, a, c);
      } else {
        CallKeptByOwner(s, a, c);
      }
    }
  }

  /** What the entry under one hop must be. */
  lemma EntryKept(s: Sys, a: Action, h: nat)
    requires TableOk(s) && LossOk(s) && Enabled(s, a) && h in Apply(s, a).pending
    requires h in s.pending ==> CallOk(s, s.pending[h])
    ensures var c := Apply(s, a).pending[h];
            && c in Apply(s, a).calls && Hop(Apply(s, a).calls[c].k) == h
            && var pc := Apply(s, a).calls[c].pc; !pc.Allocated? && !pc.AskingWhy? && !pc.Done?
  {
  }

  lemma TableKept(s: Sys, a: Action)
    requires CallsOk(s) && TableOk(s) && LossOk(s) && Enabled(s, a)
    ensures TableOk(Apply(s, a))
  {
    forall h | h in Apply(s, a).pending
      ensures var c := Apply(s, a).pending[h];
              && c in Apply(s, a).calls && Hop(Apply(s, a).calls[c].k) == h
              && var pc := Apply(s, a).calls[c].pc; !pc.Allocated? && !pc.AskingWhy? && !pc.Done?
    {
      EntryKept(s, a, h);
    }
  }

  lemma FlightsKeptByDelivery(s: Sys, a: Action)
    requires CallsOk(s) && TableOk(s) && FlightsOk(s) && Enabled(s, a) && a.Deliver?
    ensures FlightsOk(Apply(s, a))
  {
  }

  lemma FlightsKeptBySend(s: Sys, a: Action)
    requires FlightsOk(s) && Enabled(s, a) && a.Send?
    ensures FlightsOk(Apply(s, a))
  {
  }

  lemma FlightsKeptByTransfers(s: Sys, a: Action)
    requires Inv(s) && Enabled(s, a) && Moves(a)
    ensures FlightsOk(Apply(s, a))
  {
    if a.Deliver? {
      FlightsKeptByDelivery(s, a);
    } else if a.Send? {
      FlightsKeptBySend(s, a);
    }
  }

  lemma FlightsKeptByCallers(s: Sys, a: Action)
    requires Inv(s) && Enabled(s, a) && !Moves(a)
    ensures FlightsOk(Apply(s, a))
  {
  }

  lemma LossKept(s: Sys, a: Action)
    requires LossOk(s) && Enabled(s, a)
    ensures LossOk(Apply(s, a))
  {
  }

  lemma NumbersKept(s: Sys, a: Action)
    requires CallsOk(s) && Numbered(s) && Enabled(s, a)
    ensures Numbered(Apply(s, a))
  {
    forall c | c in Apply(s, a).calls
      ensures c in s.calls ==> Apply(s, a).calls[c].k == s.calls[c].k
      ensures c !in s.calls ==> a == Allocate(c) && Apply(s, a).calls[c].k == s.seq_ + 1
    {
    }
  }

  lemma StepKeepsInv(s: Sys, a: Action)
    requires Inv(s) && Enabled(s, a)
    ensures Inv(Apply(s, a))
  {
    CallsKept(s, a);
    if Moves(a) {
      FlightsKeptByTransfers(s, a);
    } else {
      FlightsKeptByCallers(s, a);
    }
    TableKept(s, a);
    LossKept(s, a);
    NumbersKept(s, a);
  }

  lemma {:induction false} Reachable(run: seq<Action>)
    requires Legal(run)
    ensures Inv(Exec(run))
    decreases |run|
  {
    if run != [] {
      Reachable(Init(run));
      StepKeepsInv(Exec(Init(run)), Last(run));
    }
  }

  // ---- no send blocks -----------------------------------------------------------------------

  /**
    Theorem: in every reachable state every pending send has room, the deliveries outside the mutex as
    well as the drain's under it, because each channel is sent on at most once in its life.
   */
  lemma NoSendBlocks(run: seq<Action>)
    requires Legal(run)
    ensures var e := Exec(run);
            && (forall c :: c in e.calls ==> e.calls[c].sent <= 1)
            && (forall i :: 0 <= i < |e.flights| ==> Enabled(e, Send(i)))
            && (e.once.Draining? ==> forall h :: h in e.pending ==> Enabled(e, DrainOne(h)))
  {
    Reachable(run);
    RoomForAll(Exec(run));
  }

  lemma RoomForAll(e: Sys)
    requires CallsOk(e) && TableOk(e) && FlightsOk(e)
    ensures forall c :: c in e.calls ==> e.calls[c].sent <= 1
    ensures forall i :: 0 <= i < |e.flights| ==> Enabled(e, Send(i))
    ensures e.once.Draining? ==> forall h :: h in e.pending ==> Enabled(e, DrainOne(h))
  {
    forall h | h in e.pending ensures HasRoom(e, e.pending[h]) {
      var c := e.pending[h];
      assert CallOk(e, c) && InTable(e, c);
    }
    forall i | 0 <= i < |e.flights| ensures Enabled(e, Send(i)) {
      assert CallOk(e, e.flights[i].to);
    }
  }

  // ---- after the loss -----------------------------------------------------------------------

  lemma FinishedStays(s: Sys, a: Action)
    requires s.once.Finished? && Enabled(s, a)
    ensures Apply(s, a).once.Finished?
  {
  }

  /** Theorem: once the drain has finished the table is empty in every later state. */
  lemma {:induction false} DrainedStaysEmpty(run: seq<Action>, longer: seq<Action>)
    requires Legal(longer) && run <= longer && Legal(run) && Exec(run).once.Finished?
    ensures Exec(longer).once.Finished? && Exec(longer).pending == map[]
    decreases |longer|
  {
    Reachable(longer);
    if |run| < |longer| {
      assert run <= Init(longer);
      DrainedStaysEmpty(run, Init(longer));
      FinishedStays(Exec(Init(longer)), Last(longer));
    } else {
      assert run == longer;
    }
  }

  /** Steps caller c takes itself. */
  predicate OwnStep(a: Action, c: Caller) {
    match a
    case Register(d) => c == d
    case WriteOk(d) => c == d
    case WriteErr(d) => c == d
    case Receive(d) => c == d
    case Timeout(d) => c == d
    case SeeClosed(d) => c == d
    case Remove(d) => c == d
    case RemoveClosed(d) => c == d
    case ReadLoss(d) => c == d
    case _ => false
  }

  /**
    Theorem: after the channel closed no caller is stuck: each unfinished call has a step of its own
    (without waiting for its context), or the drain holds the mutex and can go on.
   */
  lemma NobodyStuckAfterLoss(run: seq<Action>, c: Caller) returns (a: Action)
    requires Legal(run) && Exec(run).closed && c in Exec(run).calls && !Exec(run).calls[c].pc.Done?
    ensures Enabled(Exec(run), a) && !a.Timeout?
    ensures OwnStep(a, c) || (!Free(Exec(run)) && (a.DrainOne? || a.UnlockTable?))
  {
    Reachable(run);
    var e := Exec(run);
    RoomForAll(e);
    if e.calls[c].pc.Waiting? {
      a := SeeClosed(c);
    } else if e.calls[c].pc.Registered? {
      a := WriteOk(c);
    } else if !Free(e) {
      if e.pending == map[] {
        a := UnlockTable;
      } else {
        var h :| h in e.pending;
        a := DrainOne(h);
      }
    } else {
      a := match e.calls[c].pc
        case Allocated => Register(c)
        case Removing(_) => Remove(c)
        case LeavingClosed => RemoveClosed(c)
        case _ => ReadLoss(c);
    }
  }

  /** The error of the first failAll called in the run, of however many. */
  function FirstLoss(run: seq<Action>): Option<Error> {
    if run == [] then None
    else if FirstLoss(Init(run)).Some? then FirstLoss(Init(run))
    else if Last(run).StoreLoss? || Last(run).LateLoss? then Some(Last(run).err)
    else None
  }

  lemma {:induction false} LossIsFirst(run: seq<Action>)
    requires Legal(run)
    ensures Exec(run).loss == FirstLoss(run)
    decreases |run|
  {
    if run != [] {
      LossIsFirst(Init(run));
      Reachable(Init(run));
      LossOnlyStoredOnce(Exec(Init(run)), Last(run));
    }
  }

  lemma LossOnlyStoredOnce(s: Sys, a: Action)
    requires LossOk(s) && Enabled(s, a)
    ensures a.StoreLoss? ==> s.loss == None && Apply(s, a).loss == Some(a.err)
    ensures !a.StoreLoss? ==> Apply(s, a).loss == s.loss
    ensures a.LateLoss? ==> s.loss.Some?
  {
  }

  /**
    Theorem: however many failAll calls compete, every caller failed by the loss, drained or woken by the
    closed channel, reports the error of the first.
   */
  lemma LossReportedIsTheFirst(run: seq<Action>, c: Caller, e: Error)
    requires Legal(run) && At(Exec(run), c, Done(Lost(e)))
    ensures FirstLoss(run) == Some(e)
  {
    Reachable(run);
    LossIsFirst(run);
    assert CallOk(Exec(run), c);
  }

  // ---- why a call returned ------------------------------------------------------------------

  /** The call is on its way out for this reason, or gone. */
  predicate Leaves(x: Call, ret: Return) {
    x.pc == Removing(ret) || x.pc == Done(ret)
  }

  lemma TimedOutByStep(s: Sys, a: Action, c: Caller)
    requires Enabled(s, a) && c in Apply(s, a).calls
    ensures Leaves(Apply(s, a).calls[c], GaveUp(ContextDone)) <==>
            a == Timeout(c) || (c in s.calls && Leaves(s.calls[c], GaveUp(ContextDone)))
  {
  }

  lemma UnwrittenByStep(s: Sys, a: Action, c: Caller)
    requires Enabled(s, a) && c in Apply(s, a).calls
    ensures Leaves(Apply(s, a).calls[c], GaveUp(WriteFailed)) <==>
            a == WriteErr(c) || (c in s.calls && Leaves(s.calls[c], GaveUp(WriteFailed)))
  {
  }

  lemma RefusedByStep(s: Sys, a: Action, c: Caller)
    requires Enabled(s, a) && At(Apply(s, a), c, Done(Refused))
    requires c in s.calls && s.calls[c].pc.Removing? ==> s.calls[c].pc.ret.GaveUp?
    ensures s.closed || (c in s.calls && s.calls[c].pc == Done(Refused))
  {
  }

  lemma CallerKnown(s: Sys, a: Action, c: Caller)
    requires Enabled(s, a)
    ensures c in s.calls ==> c in Apply(s, a).calls
    ensures a == Timeout(c) || a == WriteErr(c) ==> c in s.calls
  {
  }

  lemma {:induction false} CallersOnly(run: seq<Action>, c: Caller)
    requires Legal(run) && c !in Exec(run).calls
    ensures Timeout(c) !in run && WriteErr(c) !in run
    decreases |run|
  {
    if run != [] {
      CallerKnown(Exec(Init(run)), Last(run), c);
      CallersOnly(Init(run), c);
    }
  }

  /**
    Theorem: a caller leaves with its context's error if and only if its context ended while it waited, and
    with a write error if and only if its write failed; it is refused only on a closed connection.
   */
  lemma {:induction false} ReturnsExplained(run: seq<Action>, c: Caller)
    requires Legal(run) && c in Exec(run).calls
    ensures var x := Exec(run).calls[c];
            && (Leaves(x, GaveUp(ContextDone)) <==> Timeout(c) in run)
            && (Leaves(x, GaveUp(WriteFailed)) <==> WriteErr(c) in run)
            && (x.pc == Done(Refused) ==> Exec(run).closed)
    decreases |run|
  {
    var s, a := Exec(Init(run)), Last(run);
    Reachable(Init(run));
    if c in s.calls {
      ReturnsExplained(Init(run), c);
      assert CallOk(s, c);
    } else {
      CallersOnly(Init(run), c);
    }
    TimedOutByStep(s, a, c);
    UnwrittenByStep(s, a, c);
    if Apply(s, a).calls[c].pc == Done(Refused) { RefusedByStep(s, a, c); }
    if s.closed { ClosedStays(s, a); }
    assert run == Init(run) + [a];
  }

  lemma ClosedStays(s: Sys, a: Action)
    requires Enabled(s, a) && s.closed
    ensures Apply(s, a).closed
  {
  }

  /** Every answer on its way to a caller, or returned by it, is one of the messages given. */
  ghost predicate Among(s: Sys, arrived: set<Message>) {
    && (forall i :: 0 <= i < |s.flights| ==> s.flights[i].msg in arrived)
    && (forall c :: c in s.calls ==> CallAmong(s.calls[c], arrived))
  }

  ghost predicate CallAmong(x: Call, arrived: set<Message>) {
    && (forall i :: 0 <= i < |x.box| && x.box[i].Answer? ==> x.box[i].msg in arrived)
    && (x.pc.Removing? ==> !x.pc.ret.Answered?)
    && (x.pc.Done? && x.pc.ret.Answered? ==> x.pc.ret.msg in arrived)
  }

  /** The answers the peer has sent. */
  function Arrived(run: seq<Action>): set<Message> {
    if run == [] then {}
    else Arrived(Init(run)) + if Last(run).Deliver? && !Last(run).msg.request then {Last(run).msg} else {}
  }

  lemma {:induction false} ArrivedAreAnswers(run: seq<Action>, m: Message)
    requires m in Arrived(run)
    ensures !m.request && Deliver(m) in run
  {
    if m in Arrived(Init(run)) {
      ArrivedAreAnswers(Init(run), m);
    }
  }

  lemma AmongCallsKept(s: Sys, a: Action, arrived: set<Message>, c: Caller)
    requires Among(s, arrived) && Enabled(s, a) && c in Apply(s, a).calls
    ensures CallAmong(Apply(s, a).calls[c], arrived)
  {
    assert c in s.calls ==> CallAmong(s.calls[c], arrived);
  }

  lemma AmongKept(s: Sys, a: Action, arrived: set<Message>)
    requires Among(s, arrived) && Enabled(s, a)
    ensures Among(Apply(s, a), arrived + if a.Deliver? && !a.msg.request then {a.msg} else {})
  {
    forall c | c in Apply(s, a).calls ensures CallAmong(Apply(s, a).calls[c], arrived) {
      AmongCallsKept(s, a, arrived, c);
    }
  }

  lemma {:induction false} AllAmong(run: seq<Action>)
    requires Legal(run)
    ensures Among(Exec(run), Arrived(run))
    decreases |run|
  {
    if run != [] {
      AllAmong(Init(run));
      AmongKept(Exec(Init(run)), Last(run), Arrived(Init(run)));
    }
  }

  /** Theorem: what is returned to a caller as an answer arrived from the peer, and not as a request. */
  lemma AnswerArrived(run: seq<Action>, c: Caller, m: Message)
    requires Legal(run) && At(Exec(run), c, Done(Answered(m)))
    ensures Deliver(m) in run && !m.request
  {
    AllAmong(run);
    ArrivedAreAnswers(run, m);
    assert CallAmong(Exec(run).calls[c], Arrived(run));
  }

  // ---- identifiers --------------------------------------------------------------------------

  /** Theorem: an answer returned to a caller bears the caller's own Hop-by-Hop identifier, wrap-around or not. */
  lemma AnswerBearsOwnId(run: seq<Action>, c: Caller, m: Message)
    requires Legal(run) && At(Exec(run), c, Done(Answered(m)))
    ensures m.hop == Hop(Exec(run).calls[c].k)
  {
    Reachable(run);
    assert CallOk(Exec(run), c);
  }

  lemma SameHopFarApart(j: nat, k: nat)
    requires Hop(j) == Hop(k) && j < k
    ensures k - j >= 0x1_0000_0000
  {
    var q, r := j / WRAP, k / WRAP;
    assert j == q * WRAP + Hop(j) && k == r * WRAP + Hop(k);
    assert (r - q) * WRAP == k - j;
  }

  /** Fewer than 2^32 allocations since every unfinished call's own. */
  ghost predicate Window(s: Sys) {
    forall c :: c in s.calls && !s.calls[c].pc.Done? ==> s.seq_ - s.calls[c].k < 0x1_0000_0000
  }

  /** Theorem: inside the window unfinished calls have pairwise distinct identifiers. */
  lemma DistinctIds(s: Sys, c: Caller, d: Caller)
    requires Inv(s) && Window(s) && c in s.calls && d in s.calls && c != d
    requires !s.calls[c].pc.Done? && !s.calls[d].pc.Done?
    ensures Hop(s.calls[c].k) != Hop(s.calls[d].k)
  {
    var j, k := s.calls[c].k, s.calls[d].k;
    assert CallOk(s, c) && CallOk(s, d);
    if Hop(j) == Hop(k) {
      SameHopFarApart(if j < k then j else k, if j < k then k else j);
      assert false;
    }
  }

  /** The peer echoes the identifier of a request made fewer than 2^32 allocations ago. */
  predicate Prompt(s: Sys, a: Action) {
    a.Deliver? && !a.msg.request ==>
      a.msg.hop == Hop(a.msg.about) && a.msg.about <= s.seq_ && s.seq_ - a.msg.about < 0x1_0000_0000
  }

  ghost predicate WindowedRun(run: seq<Action>)
    requires Legal(run)
    decreases |run|
  {
    && Window(Exec(run))
    && (run != [] ==> WindowedRun(Init(run)) && Prompt(Exec(Init(run)), Last(run)))
  }

  predicate InFlight(s: Sys, c: Caller) {
    exists i :: 0 <= i < |s.flights| && s.flights[i].to == c
  }

  /** A call that was registered and not yet answered, drained or removed is still findable. */
  ghost predicate Attached(s: Sys, c: Caller)
    requires c in s.calls
  {
    var x := s.calls[c];
    x.sent == 0 && (x.pc.Registered? || x.pc.Waiting? || x.pc.Removing? || x.pc.LeavingClosed?) ==>
          InTable(s, c) || InFlight(s, c)
  }

  /** Every answer on its way to a caller, or returned by it, answers that caller's request. */
  ghost predicate Addressed(s: Sys) {
    && (forall i :: 0 <= i < |s.flights| && s.flights[i].to in s.calls ==>
          s.flights[i].msg.about == s.calls[s.flights[i].to].k)
    && (forall c :: c in s.calls && |s.calls[c].box| == 1 && s.calls[c].box[0].Answer? ==>
          s.calls[c].box[0].msg.about == s.calls[c].k)
    && (forall c :: c in s.calls && s.calls[c].pc.Done? && s.calls[c].pc.ret.Answered? ==>
          s.calls[c].pc.ret.msg.about == s.calls[c].k)
  }

  lemma DeliveredToTheAsker(s: Sys, a: Action)
    requires Inv(s) && Window(s) && Enabled(s, a) && a.Deliver? && Prompt(s, a) && Expected(s, a.msg)
    ensures s.pending[a.msg.hop] in s.calls && s.calls[s.pending[a.msg.hop]].k == a.msg.about
  {
    var c := s.pending[a.msg.hop];
    var k, j := s.calls[c].k, a.msg.about;
    assert CallOk(s, c);
    if k != j { SameHopFarApart(if j < k then j else k, if j < k then k else j); }
  }

  lemma AddressedByTransfers(s: Sys, a: Action)
    requires Inv(s) && Window(s) && Addressed(s) && Enabled(s, a) && Prompt(s, a) && Moves(a)
    ensures Addressed(Apply(s, a))
  {
    if a.Deliver? && Expected(s, a.msg) {
      DeliveredToTheAsker(s, a);
      AddressedByDelivery(s, a);
    } else if !a.Deliver? {
      AddressedBySends(s, a);
    }
  }

  lemma AddressedByDelivery(s: Sys, a: Action)
    requires Addressed(s) && TableOk(s) && Enabled(s, a) && a.Deliver? && Expected(s, a.msg)
    requires s.pending[a.msg.hop] in s.calls && s.calls[s.pending[a.msg.hop]].k == a.msg.about
    ensures Addressed(Apply(s, a))
  {
  }

  lemma AddressedBySends(s: Sys, a: Action)
    requires CallsOk(s) && FlightsOk(s) && TableOk(s) && Addressed(s) && Enabled(s, a)
             && (a.Send? || a.DrainOne? || a.Receive?)
    ensures Addressed(Apply(s, a))
  {
  }

  lemma AddressedByCallers(s: Sys, a: Action)
    requires CallsOk(s) && FlightsOk(s) && Addressed(s) && Enabled(s, a) && !Moves(a)
    ensures Addressed(Apply(s, a))
  {
  }

  /** No other caller's registration or removal touches c's entry: identifiers differ inside the window. */
  lemma AttachedByTableSteps(s: Sys, a: Action, c: Caller)
    requires Inv(s) && Window(s) && Enabled(s, a) && (a.Register? || a.Remove? || a.RemoveClosed?)
    requires c in s.calls && Attached(s, c)
    ensures c in Apply(s, a).calls && Attached(Apply(s, a), c)
  {
    if c != a.c && !s.calls[c].pc.Done? {
      DistinctIds(s, c, a.c);
    }
    KeepsFlights(s, a, c);
  }

  lemma KeepsFlights(s: Sys, a: Action, c: Caller)
    requires Enabled(s, a) && !Moves(a)
    ensures InFlight(s, c) <==> InFlight(Apply(s, a), c)
  {
  }

  lemma AttachedByTransfers(s: Sys, a: Action, c: Caller)
    requires CallsOk(s) && TableOk(s) && Enabled(s, a) && Moves(a)
    requires c in s.calls && Attached(s, c)
    ensures c in Apply(s, a).calls && Attached(Apply(s, a), c)
  {
    var s' := Apply(s, a);
    assert CallOk(s, c);
    if a.Deliver? && Expected(s, a.msg) {
      assert s'.flights[|s.flights|].to == s.pending[a.msg.hop];
      if InFlight(s, c) {
        var i :| 0 <= i < |s.flights| && s.flights[i].to == c;
        assert s'.flights[i].to == c;
      }
    } else if a.Send? && s.flights[a.i].to != c && InFlight(s, c) {
      var i :| 0 <= i < |s.flights| && s.flights[i].to == c;
      assert s'.flights[if i < a.i then i else i - 1].to == c;
    }
  }

  lemma AttachedByOthers(s: Sys, a: Action, c: Caller)
    requires CallsOk(s) && Enabled(s, a) && !Moves(a) && !a.Register? && !a.Remove? && !a.RemoveClosed?
    requires c in Apply(s, a).calls && (c in s.calls ==> Attached(s, c))
    ensures Attached(Apply(s, a), c)
  {
    KeepsFlights(s, a, c);
  }

  lemma AttachedKept(s: Sys, a: Action, c: Caller)
    requires Inv(s) && Window(s) && Enabled(s, a)
    requires c in Apply(s, a).calls && (c in s.calls ==> Attached(s, c))
    ensures Attached(Apply(s, a), c)
  {
    if a.Register? || a.Remove? || a.RemoveClosed? {
      AttachedByTableSteps(s, a, c);
    } else if Moves(a) {
      AttachedByTransfers(s, a, c);
    } else {
      AttachedByOthers(s, a, c);
    }
  }

  lemma {:induction false} WindowedRunKeeps(run: seq<Action>)
    requires Legal(run) && WindowedRun(run)
    ensures Addressed(Exec(run))
    ensures forall c :: c in Exec(run).calls ==> Attached(Exec(run), c)
    decreases |run|
  {
    if run != [] {
      var s, a := Exec(Init(run)), Last(run);
      WindowedRunKeeps(Init(run));
      Reachable(Init(run));
      if Moves(a) { AddressedByTransfers(s, a); } else { AddressedByCallers(s, a); }
      forall c | c in Apply(s, a).calls ensures Attached(Apply(s, a), c) {
        AttachedKept(s, a, c);
      }
    }
  }

  /**
    Theorem: while no call and no answer outlives 2^32 later allocations, an answer is handed only to
    the caller whose request it answers, and a registered caller nobody has answered, drained or
    removed is still in the table (or its answer is already being handed over), so no answer is lost.
   */
  lemma AnswersReachTheirCaller(run: seq<Action>, c: Caller)
    requires Legal(run) && WindowedRun(run) && c in Exec(run).calls
    ensures var e := Exec(run); var x := e.calls[c];
            && (x.pc.Done? && x.pc.ret.Answered? ==> x.pc.ret.msg.about == x.k)
            && (x.pc.Waiting? && x.sent == 0 ==> InTable(e, c) || InFlight(e, c))
  {
    WindowedRunKeeps(run);
    assert Attached(Exec(run), c);
  }
}
