/**
  The delivery outbox: the deliveries table, its guarded statements, and the delivery worker as a step
  system in which new deliveries arrive, store calls fail, and the process dies at any point. Nothing
  recovers deliveries after a crash. limit is cfg.MaxAttempts.
 */
module Outbox {
  import opened Domain
  import opened Timestamps
  import opened RequestStore

  datatype Status = Pending | InFlight | Delivered | GaveUp {
    predicate Settled() {
      Delivered? || GaveUp?
    }
  }

  datatype Delivery = Delivery(status: Status, attempts: nat, next: Option<string>, code: Option<int>, created: string)

  type Table = map<Id, Delivery>

  // ---- statements ---------------------------------------------------------------------------

  predicate Ready(d: Delivery, now: string) {
    d.status == Pending && (d.next == None || TextLeq(d.next.value, now))
  }

  /** ORDER BY created_at,id LIMIT 1 */
  predicate FirstReady(t: Table, now: string, id: Id) {
    && id in t && Ready(t[id], now)
    && forall j :: j in t && Ready(t[j], now) ==> SortsFirst(t[id].created, id, t[j].created, j)
  }

  function Fresh(now: string): Delivery {
    Delivery(Pending, 0, None, None, now)
  }

  function Claimed(d: Delivery): Delivery {
    d.(status := InFlight, attempts := d.attempts + 1)
  }

  /** What the worker stores about the delivery it holds. */
  datatype Write = Requeue(next: string) | GiveUp(code: int) | Accept(code: int) {
    function To(d: Delivery): Delivery {
      match this
      case Requeue(next) => d.(status := Pending, next := Some(next))
      case GiveUp(code) => d.(status := GaveUp, code := Some(code))
      case Accept(code) => d.(status := Delivered, code := Some(code))
    }
  }

  /** UPDATE ... WHERE id=? AND state=in_flight */
  function Written(t: Table, id: Id, w: Write): Table {
    if id in t && t[id].status == InFlight then t[id := w.To(t[id])] else t
  }

  // ---- the step system ----------------------------------------------------------------------

  /** att is the worker's claimed copy of attempt_count. */
  datatype Pc =
    | Idle
    | Preparing(id: Id, att: nat)
    | Posting(id: Id, att: nat)
    | Writing(id: Id, att: nat, write: Write)
  {
    predicate Holds(i: Id) {
      !Idle? && id == i
    }
  }

  /** posts counts client.Do calls, interrupts the ones cut short by a shutdown; accepted saw a 2xx answer. */
  datatype Sys = Sys(table: Table, pc: Pc, posts: map<Id, nat>, interrupts: map<Id, nat>, accepted: set<Id>)

  datatype Action =
    | Arrive(id: Id, now: string)
    | Claim(id: Id, now: string)
    | Unusable
    | Post
    | Interrupted(now: string)
    | Refused(code: int, retryAt: string)
    | Accepted(code: int)
    | Store
    | StoreLost
    | Crash

  function Initial(): Sys {
    Sys(map[], Idle, map[], map[], {})
  }

  function Count(m: map<Id, nat>, id: Id): nat {
    if id in m then m[id] else 0
  }

  ghost predicate Enabled(s: Sys, a: Action) {
    match a
    case Arrive(id, _) => id !in s.table
    case Claim(id, now) => s.pc.Idle? && FirstReady(s.table, now, id)
    case Unusable => s.pc.Preparing?
    case Post => s.pc.Preparing?
    case Interrupted(_) => s.pc.Posting?
    case Refused(code, _) => s.pc.Posting? && !(200 <= code < 300)
    case Accepted(code) => s.pc.Posting? && 200 <= code < 300
    case Store => s.pc.Writing?
    case StoreLost => s.pc.Writing?
    case Crash => true
  }

  function Apply(limit: nat, s: Sys, a: Action): Sys
    requires Enabled(s, a)
  {
    match a
    case Arrive(id, now) => s.(table := s.table[id := Fresh(now)])
    case Claim(id, _) => s.(table := s.table[id := Claimed(s.table[id])], pc := Preparing(id, s.table[id].attempts + 1))
    case Unusable => s.(pc := Writing(s.pc.id, s.pc.att, GiveUp(0)))
    case Post => s.(pc := Posting(s.pc.id, s.pc.att), posts := s.posts[s.pc.id := Count(s.posts, s.pc.id) + 1])
    case Interrupted(now) =>
      s.(pc := Writing(s.pc.id, s.pc.att, Requeue(now)),
          interrupts := s.interrupts[s.pc.id := Count(s.interrupts, s.pc.id) + 1])
    case Refused(code, retryAt) =>
      s.(pc := Writing(s.pc.id, s.pc.att, if s.pc.att >= limit then GiveUp(code) else Requeue(retryAt)))
    case Accepted(code) => s.(pc := Writing(s.pc.id, s.pc.att, Accept(code)), accepted := s.accepted + {s.pc.id})
    case Store => s.(table := Written(s.table, s.pc.id, s.pc.write), pc := Idle)
    case StoreLost => s.(pc := Idle)
    case Crash => s.(pc := Idle)
  }

  ghost predicate Legal(limit: nat, run: seq<Action>)
    decreases |run|, 0
  {
    run == [] || (Legal(limit, run[..|run| - 1]) && Enabled(Exec(limit, run[..|run| - 1]), run[|run| - 1]))
  }

  ghost function Exec(limit: nat, run: seq<Action>): Sys
    requires Legal(limit, run)
    decreases |run|, 1
  {
    if run == [] then Initial() else Apply(limit, Exec(limit, run[..|run| - 1]), run[|run| - 1])
  }

  // ---- invariant ----------------------------------------------------------------------------

  ghost predicate PcOk(s: Sys) {
    s.pc.Idle? || (s.pc.id in s.table && s.table[s.pc.id].status == InFlight && s.table[s.pc.id].attempts == s.pc.att)
  }

  /** Claims are paid for by the budget and by interruptions, posts by claims. */
  ghost predicate BudgetOk(limit: nat, s: Sys, id: Id) {
    var unused := if s.pc.Preparing? && s.pc.id == id then 1 else 0;
    var requeuing := s.pc.Writing? && s.pc.id == id && s.pc.write.Requeue?;
    if id in s.table then
      && Count(s.posts, id) + unused <= s.table[id].attempts
      && var next := if s.table[id].status == Pending || requeuing then 1 else 0;
         s.table[id].attempts + next <= limit + Count(s.interrupts, id)
    else Count(s.posts, id) == 0 && id !in s.accepted
  }

  /** No Do call for the delivery can happen any more. */
  ghost predicate Closed(s: Sys, id: Id) {
    && id in s.table
    && (s.table[id].status.Settled()
        || (s.table[id].status == InFlight && (!s.pc.Holds(id) || (s.pc.Writing? && s.pc.write.Accept?))))
  }

  ghost predicate Inv(limit: nat, s: Sys) {
    && PcOk(s)
    && (forall id :: BudgetOk(limit, s, id))
    && (forall id :: id in s.accepted ==> Closed(s, id))
    && (forall id :: id in s.table && s.table[id].status == Delivered ==> id in s.accepted)
    && (s.pc.Writing? && s.pc.write.Accept? ==> s.pc.id in s.accepted)
  }

  /** A settled delivery carries the status it was settled with, any other none. */
  ghost predicate CodeOk(d: Delivery) {
    match d.status
    case Delivered => d.code.Some? && 200 <= d.code.value < 300
    case GaveUp => d.code.Some? && !(200 <= d.code.value < 300)
    case _ => d.code == None
  }

  ghost predicate CodesOk(s: Sys) {
    && (forall id :: id in s.table ==> CodeOk(s.table[id]))
    && (s.pc.Writing? && s.pc.write.Accept? ==> 200 <= s.pc.write.code < 300)
    && (s.pc.Writing? && s.pc.write.GiveUp? ==> !(200 <= s.pc.write.code < 300))
  }

  lemma StepKeepsCodes(limit: nat, s: Sys, a: Action)
    requires CodesOk(s) && Enabled(s, a)
    ensures CodesOk(Apply(limit, s, a))
  {
  }

  lemma StepKeepsBudget(limit: nat, s: Sys, a: Action, id: Id)
    requires limit >= 1 && PcOk(s) && BudgetOk(limit, s, id) && Enabled(s, a)
    ensures BudgetOk(limit, Apply(limit, s, a), id)
  {
  }

  lemma StepKeepsClosed(limit: nat, s: Sys, a: Action, id: Id)
    requires PcOk(s) && Enabled(s, a) && Closed(s, id)
    ensures Closed(Apply(limit, s, a), id)
    ensures Count(Apply(limit, s, a).posts, id) == Count(s.posts, id)
    ensures s.table[id].status.Settled() || !s.pc.Holds(id) ==> Apply(limit, s, a).table[id] == s.table[id]
    ensures s.table[id].status == InFlight && !s.pc.Holds(id) ==> !Apply(limit, s, a).pc.Holds(id)
  {
  }

  lemma StepKeepsInv(limit: nat, s: Sys, a: Action)
    requires limit >= 1 && Inv(limit, s) && Enabled(s, a)
    ensures Inv(limit, Apply(limit, s, a))
  {
    var after := Apply(limit, s, a);
    forall id ensures BudgetOk(limit, after, id) {
      StepKeepsBudget(limit, s, a, id);
    }
    forall id | id in s.accepted ensures Closed(after, id) {
      StepKeepsClosed(limit, s, a, id);
    }
  }

  lemma {:induction false} Reachable(limit: nat, run: seq<Action>)
    requires limit >= 1 && Legal(limit, run)
    ensures Inv(limit, Exec(limit, run))
  {
    if run != [] {
      Reachable(limit, run[..|run| - 1]);
      StepKeepsInv(limit, Exec(limit, run[..|run| - 1]), run[|run| - 1]);
    }
  }

  // ---- theorems over runs -------------------------------------------------------------------

  /** Theorem: a delivery is posted at most MaxAttempts times, plus once per shutdown that interrupted a post. */
  lemma PostBudget(limit: nat, run: seq<Action>, id: Id)
    requires limit >= 1 && Legal(limit, run)
    ensures var s := Exec(limit, run); Count(s.posts, id) <= limit + Count(s.interrupts, id)
  {
    Reachable(limit, run);
    assert BudgetOk(limit, Exec(limit, run), id);
  }

  /**
    Theorem: over any run a delivered row carries a status from 200 to 299, a given-up one a status outside
    that range (zero if there was no answer), and any other row none.
   */
  lemma {:induction false} CodesTell(limit: nat, run: seq<Action>, id: Id)
    requires Legal(limit, run)
    ensures CodesOk(Exec(limit, run))
    ensures id in Exec(limit, run).table ==>
              var d := Exec(limit, run).table[id];
              && (d.status == Delivered ==> d.code.Some? && 200 <= d.code.value <= 299)
              && (d.status == GaveUp ==> d.code.Some? && (d.code.value < 200 || d.code.value > 299))
              && (d.status == Pending || d.status == InFlight ==> d.code == None)
  {
    if run != [] {
      CodesTell(limit, run[..|run| - 1], id);
      StepKeepsCodes(limit, Exec(limit, run[..|run| - 1]), run[|run| - 1]);
    }
  }

  lemma FirstReadyMeans(t: Table, now: string, id: Id, j: Id)
    requires FirstReady(t, now, id) && j in t && Ready(t[j], now)
    ensures !TextLess(t[j].created, t[id].created)
    ensures t[j].created == t[id].created ==> TextLeq(id.text, j.text)
  {
    SortsFirstMeans(t[id].created, id, t[j].created, j);
  }

  /** Theorem: a scheduled delivery is claimable exactly when it is pending and the clock has reached its time. */
  lemma ReadyWhenReached(d: Delivery, t: Instant, clock: Instant)
    requires Valid(t) && Valid(clock) && d.next == Some(Utc(t))
    ensures Ready(d, Utc(clock)) <==> d.status == Pending && Reached(t, clock)
  {
    ReachedAsText(t, clock);
  }

  /** A claimed delivery was pending, so neither delivered nor given up, and no 2xx was ever seen for it. */
  lemma PostsOnlyUnaccepted(limit: nat, run: seq<Action>)
    requires limit >= 1 && Legal(limit, run) && Enabled(Exec(limit, run), Post)
    ensures var s := Exec(limit, run);
            s.pc.id in s.table && s.table[s.pc.id].status == InFlight && s.pc.id !in s.accepted
  {
    Reachable(limit, run);
  }

  /**
    Theorem: once a delivery is delivered, given up, answered with a 2xx, or in flight with nobody holding
    it, no later step of any run posts it again; and its row never changes once it is settled, or once
    nobody holds it. So a delivery in flight at a crash, or whose outcome could not be stored, stays there.
   */
  lemma {:induction false} ClosedForever(limit: nat, run: seq<Action>, more: seq<Action>, id: Id)
    requires limit >= 1 && Legal(limit, run + more) && Legal(limit, run) && Closed(Exec(limit, run), id)
    ensures var s, t := Exec(limit, run), Exec(limit, run + more);
            && Closed(t, id) && Count(t.posts, id) == Count(s.posts, id)
            && (s.table[id].status.Settled() || !s.pc.Holds(id) ==> t.table[id] == s.table[id])
            && (s.table[id].status == InFlight && !s.pc.Holds(id) ==> !t.pc.Holds(id))
    decreases |more|
  {
    if more == [] {
      assert run + more == run;
    } else {
      var mid := run + more[..|more| - 1];
      assert (run + more)[..|run + more| - 1] == mid && (run + more)[|run + more| - 1] == more[|more| - 1];
      ClosedForever(limit, run, more[..|more| - 1], id);
      Reachable(limit, mid);
      StepKeepsClosed(limit, Exec(limit, mid), more[|more| - 1], id);
    }
  }

  lemma Extend(limit: nat, run: seq<Action>, a: Action) returns (longer: seq<Action>)
    requires Legal(limit, run) && Enabled(Exec(limit, run), a)
    ensures longer == run + [a] && Legal(limit, longer) && Exec(limit, longer) == Apply(limit, Exec(limit, run), a)
  {
    longer := run + [a];
    assert longer[..|longer| - 1] == run && longer[|longer| - 1] == a;
  }

  /** Theorem: a delivery claimed just before a crash; from then on no run ever changes its row. */
  lemma StrandedByCrash(limit: nat, id: Id, now: string) returns (run: seq<Action>)
    requires limit >= 1
    ensures Legal(limit, run) && |run| == 3 && run[1] == Claim(id, now) && run[2] == Crash
    ensures id in Exec(limit, run).table && Exec(limit, run).table[id].status == InFlight
    ensures forall more :: Legal(limit, run + more) ==> RowStays(limit, run, more, id)
  {
    run := ClaimedThenCrashed(limit, id, now);
    forall more | Legal(limit, run + more) ensures RowStays(limit, run, more, id) {
      ClosedForever(limit, run, more, id);
    }
  }

  function Alone(id: Id, d: Delivery): Sys {
    Initial().(table := map[id := d])
  }

  lemma ClaimedThenCrashed(limit: nat, id: Id, now: string) returns (run: seq<Action>)
    ensures Legal(limit, run) && |run| == 3 && run[1] == Claim(id, now) && run[2] == Crash
    ensures Exec(limit, run) == Alone(id, Claimed(Fresh(now)))
  {
    run := Extend(limit, [], Arrive(id, now));
    assert Exec(limit, run) == Alone(id, Fresh(now));
    ClaimAlone(limit, id, now);
    run := Extend(limit, run, Claim(id, now));
    run := Extend(limit, run, Crash);
  }

  lemma ClaimAlone(limit: nat, id: Id, now: string)
    ensures var s := Alone(id, Fresh(now));
            && Enabled(s, Claim(id, now))
            && Apply(limit, s, Claim(id, now)) == Alone(id, Claimed(Fresh(now))).(pc := Preparing(id, 1))
  {
    FirstOfOne(id, now);
    var t: Table := map[id := Fresh(now)];
    assert t[id := Claimed(Fresh(now))] == map[id := Claimed(Fresh(now))];
  }

  lemma FirstOfOne(id: Id, now: string)
    ensures FirstReady(map[id := Fresh(now)], now, id)
  {
    TextTotal(id.text, id.text);
  }

  /** more, a continuation of run, leaves the delivery's row as it is. */
  ghost predicate RowStays(limit: nat, run: seq<Action>, more: seq<Action>, id: Id)
    requires Legal(limit, run) && Legal(limit, run + more)
  {
    && (id in Exec(limit, run + more).table <==> id in Exec(limit, run).table)
    && (id in Exec(limit, run).table ==> Exec(limit, run + more).table[id] == Exec(limit, run).table[id])
  }

  ghost predicate CanChange(limit: nat, run: seq<Action>, id: Id)
    requires Legal(limit, run)
  {
    exists more :: Legal(limit, run + more) && !RowStays(limit, run, more, id)
  }

  /**
    Theorem: after any run, some continuation changes a delivery's row if and only if it is pending or the
    worker holds it.
   */
  lemma ChangesOnlyIfPendingOrHeld(limit: nat, run: seq<Action>, id: Id)
    requires limit >= 1 && Legal(limit, run) && id in Exec(limit, run).table
    ensures CanChange(limit, run, id) <==> Exec(limit, run).table[id].status == Pending || Exec(limit, run).pc.Holds(id)
  {
    var s := Exec(limit, run);
    Reachable(limit, run);
    if s.pc.Holds(id) {
      var more := HeldIsWritten(limit, run, id);
      assert !RowStays(limit, run, more, id);
    } else if s.table[id].status == Pending {
      var idle := Extend(limit, run, Crash);
      var now := if s.table[id].next.Some? then s.table[id].next.value else s.table[id].created;
      var tail := PendingIsClaimed(limit, idle, id, now);
      assert run + ([Crash] + tail) == idle + tail;
      assert !RowStays(limit, run, [Crash] + tail, id);
    } else {
      forall more | Legal(limit, run + more) ensures RowStays(limit, run, more, id) {
        ClosedForever(limit, run, more, id);
      }
    }
  }

  /** The worker can finish with the delivery it holds. */
  lemma HeldIsWritten(limit: nat, run: seq<Action>, id: Id) returns (more: seq<Action>)
    requires limit >= 1 && Legal(limit, run) && Inv(limit, Exec(limit, run)) && Exec(limit, run).pc.Holds(id)
    ensures Legal(limit, run + more) && id in Exec(limit, run).table && !RowStays(limit, run, more, id)
  {
    more := ToTheWrite(limit, run);
    var longer := Extend(limit, run + more, Store);
    more := more + [Store];
    assert longer == run + more;
  }

  lemma ToTheWrite(limit: nat, run: seq<Action>) returns (more: seq<Action>)
    requires Legal(limit, run) && !Exec(limit, run).pc.Idle?
    ensures Legal(limit, run + more) && Exec(limit, run + more).table == Exec(limit, run).table
    ensures Exec(limit, run + more).pc.Writing? && Exec(limit, run + more).pc.id == Exec(limit, run).pc.id
  {
    var pc := Exec(limit, run).pc;
    more := [];
    assert run + more == run;
    if !pc.Writing? {
      var a := if pc.Preparing? then Unusable else Accepted(200);
      var longer := Extend(limit, run, a);
      more := [a];
    }
  }

  /** A pending delivery can be claimed, once those ahead of it have been. */
  lemma {:induction false} PendingIsClaimed(limit: nat, run: seq<Action>, id: Id, now: string)
    returns (more: seq<Action>)
    requires Legal(limit, run) && Exec(limit, run).pc.Idle?
    requires id in Exec(limit, run).table && Ready(Exec(limit, run).table[id], now)
    ensures Legal(limit, run + more) && !RowStays(limit, run, more, id)
    decreases ReadyOnes(Exec(limit, run).table, now)
  {
    var t := Exec(limit, run).table;
    var first := SomeFirstReady(t, now, id);
    var longer := Extend(limit, run, Claim(first, now));
    if first == id {
      more := [Claim(id, now)];
    } else {
      longer := Extend(limit, longer, Crash);
      OneLessReady(t, now, first);
      var tail := PendingIsClaimed(limit, longer, id, now);
      more := [Claim(first, now), Crash] + tail;
      assert longer == run + [Claim(first, now), Crash] && run + more == longer + tail;
    }
  }

  lemma SomeFirstReady(t: Table, now: string, id: Id) returns (first: Id)
    requires id in t && Ready(t[id], now)
    ensures FirstReady(t, now, first)
  {
    assert id in ReadyOnes(t, now);
    first := FirstExists(map j | j in t :: t[j].created, ReadyOnes(t, now));
    forall j | j in t && Ready(t[j], now) ensures SortsFirst(t[first].created, first, t[j].created, j) {
      assert j in ReadyOnes(t, now);
    }
  }

  lemma OneLessReady(t: Table, now: string, id: Id)
    requires id in t && Ready(t[id], now)
    ensures ReadyOnes(t[id := Claimed(t[id])], now) < ReadyOnes(t, now)
  {
    assert id in ReadyOnes(t, now) && id !in ReadyOnes(t[id := Claimed(t[id])], now);
  }

  ghost function ReadyOnes(t: Table, now: string): set<Id> {
    set j | j in t && Ready(t[j], now)
  }

  /** Theorem: an endpoint that has answered a delivery with a 2xx is never sent it again. */
  lemma AcceptedOnce(limit: nat, run: seq<Action>, more: seq<Action>, id: Id)
    requires limit >= 1 && Legal(limit, run + more) && Legal(limit, run) && id in Exec(limit, run).accepted
    ensures Count(Exec(limit, run + more).posts, id) == Count(Exec(limit, run).posts, id)
  {
    Reachable(limit, run);
    ClosedForever(limit, run, more, id);
  }

  /** A requeued delivery is never claimed while the clock is in an earlier second than its next attempt. */
  lemma ClaimRespectsSchedule(s: Sys, id: Id, now: Instant, next: Instant)
    requires Enabled(s, Claim(id, Utc(now))) && Valid(now) && Valid(next) && s.table[id].next == Some(Utc(next))
    ensures Seconds(next) <= Seconds(now)
  {
    if Seconds(now) < Seconds(next) {
      LaterSecondNotReached(next, now);
    }
  }
}
