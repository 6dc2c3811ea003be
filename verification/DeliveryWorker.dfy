/**
  The delivery worker's own code, run against the deliveries table. New deliveries may arrive between any
  two of its store calls; whatever the endpoint, the clock and the store do, the execution is a run of
  the outbox's step system, so everything proved about runs holds of this code.
 */
module DeliveryWorker {
  import opened Domain
  import opened RequestStore
  import opened Timestamps
  import opened Outbox
  import Backoff

  /** What client.Do gave: an error, because of a shutdown or not, or an HTTP status. */
  datatype Reply = NoAnswer(shutdown: bool) | Answer(status: int)

  /** The clock, seen from one iteration: the text of the instant so many nanoseconds from now. */
  type Clock = int -> string

  class DeliveryStore {
    var table: Table

    constructor ()
      ensures table == map[]
    {
      table := map[];
    }

    method CreateDelivery(id: Id, now: string) returns (outcome: Outcome)
      modifies this
      ensures table == if id in old(table) then old(table) else old(table)[id := Fresh(now)]
      ensures outcome == Done <==> id !in old(table)
      ensures outcome == Done ==> table[id] == Delivery(Pending, 0, None, None, now)
    {
      if id in table {
        return Conflict;
      }
      table := table[id := Fresh(now)];
      return Done;
    }

    method ClaimNextDelivery(now: string, reachable: bool) returns (found: bool, id: Id, attempts: nat)
      modifies this
      ensures found <==> reachable && exists j :: j in old(table) && Ready(old(table)[j], now)
      ensures found ==> FirstReady(old(table), now, id) && table == old(table)[id := Claimed(old(table)[id])]
                        && attempts == table[id].attempts
      ensures !found ==> table == old(table)
      ensures reachable && (exists j :: j in old(table) && old(table)[j].status == Pending
                                        && TimeHasCome(old(table)[j].next, now)) ==>
                found
      ensures found ==> id in old(table) && old(table)[id].status == Pending && NotTooEarly(old(table)[id].next, now)
      ensures found ==>
                table == old(table)[id := old(table)[id].(status := InFlight, attempts := old(table)[id].attempts + 1)]
      ensures found ==> forall j :: j in old(table) && Ready(old(table)[j], now) ==>
                && !TextLess(old(table)[j].created, old(table)[id].created)
                && (old(table)[j].created == old(table)[id].created ==> TextLeq(id.text, j.text))
    {
      forall j | j in table && table[j].status == Pending && TimeHasCome(table[j].next, now)
        ensures Ready(table[j], now)
      {
        ComparedTexts(table[j].next, now);
      }
      var ready := set j | j in table && Ready(table[j], now);
      assert forall j :: j in table && Ready(table[j], now) ==> j in ready;
      if !reachable || ready == {} {
        return false, Id(""), 0;
      }
      ghost var first := FirstExists(map j | j in table :: table[j].created, ready);
      assert FirstReady(table, now, first);
      id :| id in table && FirstReady(table, now, id);
      ComparedTexts(table[id].next, now);
      forall j | j in table && Ready(table[j], now)
        ensures !TextLess(table[j].created, table[id].created)
        ensures table[j].created == table[id].created ==> TextLeq(id.text, j.text)
      {
        FirstReadyMeans(table, now, id, j);
      }
      table := table[id := table[id].(status := InFlight, attempts := table[id].attempts + 1)];
      return true, id, table[id].attempts;
    }

    /** RequeueDelivery, FailDelivery and MarkDelivered: one guarded UPDATE, differing in the columns set. */
    method Update(id: Id, w: Write, reachable: bool) returns (outcome: Outcome)
      modifies this
      ensures table == if reachable then Written(old(table), id, w) else old(table)
      ensures outcome == if !reachable then IoError
                         else if id in old(table) && old(table)[id].status == InFlight then Done else Conflict
      ensures outcome == Done ==> table == old(table)[id := table[id]]
      ensures outcome == Done && w.Requeue? ==> table[id] == old(table)[id].(status := Pending, next := Some(w.next))
      ensures outcome == Done && w.GiveUp? ==> table[id] == old(table)[id].(status := GaveUp, code := Some(w.code))
      ensures outcome == Done && w.Accept? ==> table[id] == old(table)[id].(status := Delivered, code := Some(w.code))
    {
      if !reachable {
        return IoError;
      }
      if id !in table || table[id].status != InFlight {
        return Conflict;
      }
      table := table[id := w.To(table[id])];
      return Done;
    }
  }

  /** No answer for any reason but a shutdown, or a status outside 200 to 299. */
  predicate FailedAttempt(reply: Reply) {
    reply == NoAnswer(false) || (reply.Answer? && (reply.status < 200 || reply.status > 299))
  }

  /** What is to be stored about an attempt, by how it went. */
  function Verdict(c: Backoff.Config, att: nat, usable: bool, reply: Reply, clock: Clock): Write {
    if !usable then GiveUp(0)
    else match reply
      case NoAnswer(true) => Requeue(clock(0))
      case NoAnswer(false) => AfterFailure(c, att, 0, clock)
      case Answer(status) => if 200 <= status < 300 then Accept(status) else AfterFailure(c, att, status, clock)
  }

  function AfterFailure(c: Backoff.Config, att: nat, code: int, clock: Clock): Write {
    if att >= c.maxAttempts then GiveUp(code) else Requeue(clock(Backoff.Delay(att, c.min, c.max)))
  }

  class Worker {
    const store: DeliveryStore
    const cfg: Backoff.Config
    ghost var run: seq<Action>
    ghost var sys: Sys

    ghost predicate Running()
      reads this
    {
      && cfg.maxAttempts >= 1
      && Legal(cfg.maxAttempts, run) && Exec(cfg.maxAttempts, run) == sys && Inv(cfg.maxAttempts, sys)
    }

    ghost predicate Valid()
      reads this, store
    {
      Running() && sys.table == store.table
    }

    /** A worker over whatever earlier processes left: before is the run so far. */
    constructor (store: DeliveryStore, cfg: Backoff.Config, ghost before: seq<Action>)
      requires Legal(Backoff.Defaulted(cfg).maxAttempts, before)
      requires var s := Exec(Backoff.Defaulted(cfg).maxAttempts, before); s.table == store.table && s.pc.Idle?
      ensures this.store == store && this.cfg == Backoff.Defaulted(cfg) && Valid() && run == before && sys.pc.Idle?
    {
      this.store, this.cfg := store, Backoff.Defaulted(cfg);
      run, sys := before, Exec(Backoff.Defaulted(cfg).maxAttempts, before);
      Reachable(Backoff.Defaulted(cfg).maxAttempts, before);
    }

    ghost method Log(a: Action)
      requires Running() && Enabled(sys, a)
      modifies this
      ensures Running() && sys == Apply(cfg.maxAttempts, old(sys), a) && run == old(run) + [a]
    {
      assert (run + [a])[..|run + [a]| - 1] == run;
      StepKeepsInv(cfg.maxAttempts, sys, a);
      sys, run := Apply(cfg.maxAttempts, sys, a), run + [a];
    }

    /** Completion hooks insert deliveries at any time. */
    method Arrivals()
      requires Valid()
      modifies this, store
      ensures Valid() && sys == old(sys).(table := sys.table)
      ensures forall id :: id in old(store.table) ==> id in store.table && store.table[id] == old(store.table)[id]
    {
      var n: int := *;
      for i := 0 to if n < 0 then 0 else n
        invariant Valid() && sys == old(sys).(table := sys.table)
        invariant forall id :: id in old(store.table) ==> id in store.table && store.table[id] == old(store.table)[id]
      {
        var id: Id, now: string := *, *;
        var outcome := store.CreateDelivery(id, now);
        if outcome == Done {
          Log(Arrive(id, now));
        }
      }
    }

    /** The last store call of an iteration; its error is ignored. */
    method Conclude(id: Id, w: Write, reachable: bool)
      requires Valid() && sys.pc.Writing? && sys.pc.id == id && sys.pc.write == w
      modifies this, store
      ensures Valid() && sys.pc.Idle?
      ensures store.table == if reachable then Written(old(store.table), id, w) else old(store.table)
    {
      var outcome := store.Update(id, w, reachable);
      Log(if reachable then Store else StoreLost);
    }

    method RetryOrFail(id: Id, attempts: nat, code: int, clock: Clock, reachable: bool)
      requires Valid() && sys.pc == Posting(id, attempts) && (code < 200 || code > 299)
      modifies this, store
      ensures Valid() && sys.pc.Idle?
      ensures var w := AfterFailure(cfg, attempts, code, clock);
              store.table == if reachable then Written(old(store.table), id, w) else old(store.table)
    {
      var delay := Backoff.Delay(attempts, cfg.min, cfg.max);
      Log(Refused(code, clock(delay)));
      if attempts >= cfg.maxAttempts {
        Conclude(id, GiveUp(code), reachable);
        return;
      }
      Conclude(id, Requeue(clock(delay)), reachable);
    }

    /** The store call a finished attempt ends with. */
    method Settle(id: Id, attempts: nat, reply: Reply, clock: Clock, reachable: bool)
      requires Valid() && sys.pc == Posting(id, attempts)
      modifies this, store
      ensures Valid() && sys.pc.Idle?
      ensures var w := Verdict(cfg, attempts, true, reply, clock);
              store.table == if reachable then Written(old(store.table), id, w) else old(store.table)
    {
      match reply
      case NoAnswer(shutdown) =>
        if shutdown {
          Log(Interrupted(clock(0)));
          Conclude(id, Requeue(clock(0)), reachable);
        } else {
          RetryOrFail(id, attempts, 0, clock, reachable);
        }
      case Answer(status) =>
        if 200 <= status < 300 {
          Log(Accepted(status));
          Conclude(id, Accept(status), reachable);
        } else {
          RetryOrFail(id, attempts, status, clock, reachable);
        }
    }

    /** What follows a claim. */
    method Attempt(id: Id, attempts: nat, clock: Clock, usable: bool, reply: Reply, reachable: bool)
      requires Valid() && sys.pc == Preparing(id, attempts)
      modifies this, store
      ensures Valid() && sys.pc.Idle? && id in old(store.table) && id in store.table
      ensures var w := Verdict(cfg, attempts, usable, reply, clock);
              store.table[id] == if reachable then w.To(old(store.table)[id]) else old(store.table)[id]
      ensures forall j :: j in old(store.table) && j != id ==> j in store.table && store.table[j] == old(store.table)[j]
    {
      Arrivals();
      if !usable {
        Log(Unusable);
        Conclude(id, GiveUp(0), reachable);
        return;
      }
      Log(Post);
      Arrivals();
      Settle(id, attempts, reply, clock, reachable);
    }

    method ClaimOne(now: string, open: bool) returns (claimed: bool, id: Id, attempts: nat)
      requires Valid() && sys.pc.Idle?
      modifies this, store
      ensures Valid()
      ensures claimed <==> open && exists j :: j in old(store.table) && Ready(old(store.table)[j], now)
      ensures !claimed ==> store.table == old(store.table) && sys == old(sys)
      ensures claimed ==>
                && FirstReady(old(store.table), now, id)
                && store.table == old(store.table)[id := Claimed(old(store.table)[id])]
                && attempts == old(store.table)[id].attempts + 1 && sys.pc == Preparing(id, attempts)
    {
      claimed, id, attempts := store.ClaimNextDelivery(now, open);
      if claimed {
        Log(Claim(id, now));
      }
    }

    /**
      One iteration. open is whether the claim's transaction goes through, usable whether the subscription,
      its secret and the request could be made;
      reachable whether the last store call takes effect.
     */
    method One(now: string, clock: Clock, open: bool, usable: bool, reply: Reply, reachable: bool)
      returns (claimed: bool, id: Id)
      requires Valid() && sys.pc.Idle?
      modifies this, store
      ensures Valid() && sys.pc.Idle?
      ensures claimed <==> open && exists j :: j in old(store.table) && Ready(old(store.table)[j], now)
      ensures !claimed ==> store.table == old(store.table)
      ensures claimed ==>
        && FirstReady(old(store.table), now, id) && id in store.table
        && var held := Claimed(old(store.table)[id]);
           store.table[id] == if reachable then Verdict(cfg, held.attempts, usable, reply, clock).To(held) else held
      ensures forall j :: j in old(store.table) && !(claimed && j == id) ==>
                j in store.table && store.table[j] == old(store.table)[j]
      ensures claimed && !reachable ==>
                var d := old(store.table)[id];
                store.table[id] == d.(status := InFlight, attempts := d.attempts + 1)
      ensures claimed && reachable && !usable ==>
                var d := old(store.table)[id];
                store.table[id] == d.(status := GaveUp, attempts := d.attempts + 1, code := Some(0))
      ensures claimed && reachable ==>
                (store.table[id].status == Delivered <==> usable && reply.Answer? && 200 <= reply.status <= 299)
      ensures claimed && reachable && usable && reply.Answer? && 200 <= reply.status <= 299 ==>
                var d := old(store.table)[id];
                store.table[id] == d.(status := Delivered, attempts := d.attempts + 1, code := Some(reply.status))
      ensures claimed && reachable && usable && reply == NoAnswer(true) ==>
                var d := old(store.table)[id];
                store.table[id] == d.(status := Pending, attempts := d.attempts + 1, next := Some(clock(0)))
      ensures claimed && reachable && usable && FailedAttempt(reply)
              && old(store.table)[id].attempts + 1 < cfg.maxAttempts ==>
                var d := old(store.table)[id];
                var delay := Backoff.Delay(d.attempts + 1, cfg.min, cfg.max);
                store.table[id] == d.(status := Pending, attempts := d.attempts + 1, next := Some(clock(delay)))
      ensures claimed && reachable && usable && FailedAttempt(reply)
              && old(store.table)[id].attempts + 1 >= cfg.maxAttempts ==>
                var d, code := old(store.table)[id], if reply.Answer? then reply.status else 0;
                store.table[id] == d.(status := GaveUp, attempts := d.attempts + 1, code := Some(code))
    {
      var attempts: nat;
      claimed, id, attempts := ClaimOne(now, open);
      if claimed {
        Attempt(id, attempts, clock, usable, reply, reachable);
      }
    }
  }
}
